/**
 * The events that rewrite mode hands over to be written, file by file.  The lists are computed along the run from
 * what process_binlog_event is called with; they are shown to be the lists of events of the stored files.
 */
module RewriteJournal {
  import opened Prelude
  import opened BinlogNames
  import opened ReaderContext
  import opened Streaming
  import opened Alignment
  import opened Connections
  import opened RewriteMode
  import A = Application
  import SM = StorageModel

  type Journal = seq<seq<Event>>

  // ----- along the run -----------------------------------------------------------------

  /** process_binlog_event notes an event it writes, and starts a list with a file; what is discarded goes. */
  ghost function Noted(j: Journal, log: Log, c: Ctx, e: Event): Journal {
    var r := ProcessEvent(log, c, e);
    if r.Err? then j
    else if IsWritten(c, e) then Extended(j, e)
    else if |r.value.0.files| > |log.files| then Kept(j, log.files) + [[]]
    else j
  }

  ghost function PrefaceNotes(cfg: Config, j: Journal, log: Log, c: Ctx, name: Name, g: Generated,
                              upto: Part): Journal {
    var open := ArtificialRotate(name, MAGIC_OFFSET);
    var (r1, j1) := (ProcessEvent(log, c, open), Noted(j, log, c, open));
    if r1.Err? || upto.Opening? then j1
    else
      var (log1, c1) := r1.value;
      var (r2, j2) := (ProcessEvent(log1, c1, FdeOf(g, name)), Noted(j1, log1, c1, FdeOf(g, name)));
      if r2.Err? || upto.Describing? then j2
      else Noted(j2, r2.value.0, r2.value.1, PglOf(cfg, r2.value.0.files, g, name))
  }

  ghost function FileNotes(cfg: Config, j: Journal, log: Log, c: Ctx, g: Generated, upto: Part): Journal {
    var name := FileToUse(cfg, log, c);
    if name.None? then j
    else if c.IsFresh() then PrefaceNotes(cfg, j, log, c, name.value, g, upto)
    else
      var rotate := Made(Rotate, g.rotate, CurrentPosition(log), name.value);
      var (r, j1) := (ProcessEvent(log, c, rotate), Noted(j, log, c, rotate));
      if r.Err? || upto.Finishing? then j1 else PrefaceNotes(cfg, j1, r.value.0, r.value.1, name.value, g, upto)
  }

  /** rewrite_and_process_binlog_event as far as a part. */
  ghost function Handled(cfg: Config, j: Journal, log: Log, c: Ctx, e: Event, g: Generated, upto: Part): Journal {
    if IsSkipped(e) then j
    else
      var j1 := if NeedsFile(cfg, log, c) then FileNotes(cfg, j, log, c, g, upto) else j;
      var r := if NeedsFile(cfg, log, c) then NewFile(cfg, log, c, g) else Ok((log, c));
      if !upto.Storing? || r.Err? || g.body.None? then j1
      else Noted(j1, r.value.0, r.value.1, Relocated(r.value.0, e, g.body.value))
  }

  // ----- one event ---------------------------------------------------------------------

  lemma NotedWritten(j: Journal, log: Log, c: Ctx, e: Event)
    requires ProcessEvent(log, c, e).Ok? && IsWritten(c, e)
    ensures Noted(j, log, c, e) == Extended(j, e)
  {
  }

  lemma NotedInfo(j: Journal, log: Log, c: Ctx, e: Event)
    requires ProcessEvent(log, c, e).Ok? && !IsWritten(c, e)
    ensures Noted(j, log, c, e)
         == if |ProcessEvent(log, c, e).value.0.files| > |log.files| then Kept(j, log.files) + [[]] else j
  {
  }

  lemma OpensUnwritten(log: Log, c: Ctx, name: Name)
    requires ProcessEvent(log, c, ArtificialRotate(name, MAGIC_OFFSET)).Ok?
    ensures !IsWritten(c, ArtificialRotate(name, MAGIC_OFFSET))
  {
    hide Process, ProcessEvent;
    A.AcceptedProcess(log, c, ArtificialRotate(name, MAGIC_OFFSET));
    A.RotateIsInfo(c, ArtificialRotate(name, MAGIC_OFFSET));
  }

  lemma AllMadeKept(cfg: Config, files: seq<FileLog>, outs: seq<Output>)
    requires FilesMade(cfg, files, outs)
    ensures Kept(Events(outs), files) == Events(outs)
  {
    hide FilesMade;
    MadeLength(cfg, files, outs);
    forall i | 0 <= i < |files|
      ensures |files[i].evs| <= |Events(outs)[i]| && Events(outs)[i] == Events(outs)[i][..|files[i].evs|]
    {
      MadeLengths(cfg, files, outs, i);
    }
    KeptIs(Events(outs), files, Events(outs));
  }

  lemma ExtendedLast(j: Journal, list: seq<Event>, e: Event)
    ensures Extended(j + [list], e) == j + [list + [e]]
  {
  }

  // ----- a new file --------------------------------------------------------------------

  /** The two written events of a preface, once its file is open. */
  lemma PrefaceNoted(cfg: Config, j: Journal, log: Log, c: Ctx, before: seq<FileLog>, name: Name, g: Generated)
    requires c.mode == GtidBased && Conn(log, c, SrcFile(name, []), 0) && log.files == before + [SM.FileLog(name, [])]
    requires PrefaceFits(cfg, SM.AllGtids(cfg.base, before), g)
    ensures var (fde, pgl) := (FdeOf(g, name), PglOf(cfg, before, g, name));
      && ProcessEvent(log, c, fde).Ok? && Noted(j + [[]], log, c, fde) == j + [[fde]]
      && var (log1, c1) := ProcessEvent(log, c, fde).value;
         && PglOf(cfg, log1.files, g, name) == pgl
         && Noted(j + [[fde]], log1, c1, pgl) == j + [[fde, pgl]]
  {
    hide ProcessEvent, SoFar, PhaseOf, Conn, Offset, IsWritten, Noted, Extended, PglOf;
    var (fde, pgl) := (FdeOf(g, name), PglOf(cfg, before, g, name));
    WriteFde(log, c, before, name, g);
    var (log1, c1) := ProcessEvent(log, c, fde).value;
    NotedWritten(j + [[]], log, c, fde);
    ExtendedLast(j, [], fde);
    assert [] + [fde] == [fde];
    WritePgl(cfg, log1, c1, before, name, g);
    SamePgl(cfg, before, g, name);
    NotedWritten(j + [[fde]], log1, c1, pgl);
    ExtendedLast(j, [fde], pgl);
    assert [fde] + [pgl] == [fde, pgl];
  }

  lemma SamePgl(cfg: Config, before: seq<FileLog>, g: Generated, name: Name)
    ensures PglOf(cfg, before + [SM.FileLog(name, [])], g, name) == PglOf(cfg, before, g, name)
  {
    SameGtids(cfg.base, before, name);
  }

  lemma NewPrefaceNotes(cfg: Config, log: Log, c: Ctx, outs: seq<Output>, name: Name, g: Generated, upto: Part)
    requires c.mode == GtidBased && CanEnter(c) && c.name != Some(name) && (log.open || log.tail == [])
    requires FilesMade(cfg, log.files, outs) && NameAfter(cfg, log.files) == Some(name)
    requires PrefaceFits(cfg, SM.AllGtids(cfg.base, log.files), g)
    ensures PrefaceNotes(cfg, Events(outs), log, c, name, g, upto)
         == Events(outs) + [PrefaceEvents(cfg, log.files, g, name, upto)]
  {
    hide ProcessEvent, FilesMade, PrefaceFits, CanEnter, Conn, Noted, Events, Kept, PglOf, FdeOf;
    var open := ArtificialRotate(name, MAGIC_OFFSET);
    FreshName(cfg, log.files, outs, name);
    EnterNew(log, c, name);
    OpensUnwritten(log, c, name);
    NotedInfo(Events(outs), log, c, open);
    AllMadeKept(cfg, log.files, outs);
    var (log1, c1) := ProcessEvent(log, c, open).value;
    EnterConnects(log1, c, SrcFile(name, []));
    PrefaceNoted(cfg, Events(outs), log1, c1, log.files, name, g);
  }

  lemma EmptyPrefaceNotes(cfg: Config, log: Log, outs: seq<Output>, g: Generated, upto: Part)
    requires Paused(cfg, log, outs) && log.files != [] && LastFile(log).evs == []
    requires PrefaceFits(cfg, SM.AllGtids(cfg.base, log.files), g)
    ensures |outs| == |log.files|
    ensures var j := Events(outs);
      PrefaceNotes(cfg, j, log, FreshContext(log, GtidBased), LastFile(log).name, g, upto)
      == j[..|j| - 1] + [PrefaceEvents(cfg, log.files, g, LastFile(log).name, upto)]
  {
    hide ProcessEvent, PrefaceFits, Conn, Noted, Kept, PglOf, FdeOf, SM.AllGtids, FilesMade, Fits, PhaseOf;
    var c, name := FreshContext(log, GtidBased), LastFile(log).name;
    var n := |log.files| - 1;
    PausedPosition(cfg, log, outs);
    ReturnToLast(log, GtidBased);
    EmptyAtMagic(log);
    OpensUnwritten(log, c, name);
    var j := Events(outs);
    NotedInfo(j, log, c, ArtificialRotate(name, MAGIC_OFFSET));
    assert j == j[..n] + [[]];
    var open := log.(open := true);
    var back := Back(GtidBased, name, MAGIC_OFFSET);
    assert back == Entered(back.(cycle := 0), name);
    EnterConnects(open, back.(cycle := 0), SrcFile(name, []));
    var before := log.files[..n];
    assert log.files == before + [SM.FileLog(name, [])];
    SameGtids(cfg.base, before, name);
    SamePgl(cfg, before, g, name);
    PrefaceNoted(cfg, j[..n], open, back, before, name, g);
  }

  lemma AgainPrefaceNotes(cfg: Config, log: Log, outs: seq<Output>, g: Generated, upto: Part)
    requires Paused(cfg, log, outs) && log.files != [] && LastFile(log).evs != []
    ensures PrefaceNotes(cfg, Events(outs), log, FreshContext(log, GtidBased), LastFile(log).name, g, upto)
         == Events(outs)
  {
    hide ProcessEvent, Process, FilesMade, Shaped, PhaseOf, CurrentPosition, Offset, Copy, Current, Noted,
      Events, FreshContext;
    PausedPosition(cfg, log, outs);
    var j, c, pos, name := Events(outs), FreshContext(log, GtidBased), CurrentPosition(log), LastFile(log).name;
    var open, back := log.(open := true), Back(GtidBased, name, pos);
    ReturnToLast(log, GtidBased);
    OpensUnwritten(log, c, name);
    NotedInfo(j, log, c, ArtificialRotate(name, MAGIC_OFFSET));
    var (fde, pgl) := (FdeOf(g, name), PglOf(cfg, log.files, g, name));
    ReadsPreface(name, pos, fde, pgl);
    InfoOnly(open, back, fde);
    NotedInfo(j, open, back, fde);
    InfoOnly(open, back.(state := Previous), pgl);
    NotedInfo(j, open, back.(state := Previous), pgl);
  }

  // ----- a file when one is needed -----------------------------------------------------

  lemma FreshNotes(cfg: Config, log: Log, outs: seq<Output>, g: Generated, upto: Part)
    requires var c := FreshContext(log, GtidBased); Paused(cfg, log, outs) && NewFileFits(cfg, log, c, g)
    ensures var c := FreshContext(log, GtidBased);
      FileNotes(cfg, Events(outs), log, c, g, upto) == FileEvents(cfg, log, c, outs, g, upto)
  {
    hide PrefaceNotes, PrefaceEvents, PrefaceFits, FilesMade, Fits, PhaseOf, SM.AllGtids;
    var c := FreshContext(log, GtidBased);
    if log.files == [] {
      var head := PrefaceEvents(cfg, log.files, g, cfg.first, upto);
      assert Events(outs) == [] && [] + [head] == [head];
      NothingMade(cfg);
      NewPrefaceNotes(cfg, log, c, [], cfg.first, g, upto);
    } else {
      PausedPosition(cfg, log, outs);
      if LastFile(log).evs == [] {
        EmptyPrefaceNotes(cfg, log, outs, g, upto);
      } else {
        AgainPrefaceNotes(cfg, log, outs, g, upto);
      }
    }
  }

  lemma NothingMade(cfg: Config)
    ensures FilesMade(cfg, [], [])
  {
  }

  lemma NextNotes(cfg: Config, log: Log, c: Ctx, outs: seq<Output>, g: Generated, upto: Part)
    requires Connected(cfg, log, c, outs) && NeedsFile(cfg, log, c) && !c.IsFresh() && NewFileFits(cfg, log, c, g)
    ensures FileNotes(cfg, Events(outs), log, c, g, upto) == FileEvents(cfg, log, c, outs, g, upto)
  {
    hide PrefaceNotes, ProcessEvent, PhaseOf, PrefaceFits, FilesMade, Shaped, Conn, RotateFits, CanEnter, Noted,
      IsWritten, Events, Extended, PglOf, FdeOf, SM.AllGtids, Order;
    var name := FileToUse(cfg, log, c).value;
    var rotate := Made(Rotate, g.rotate, CurrentPosition(log), name);
    FinishFile(cfg, log, c, outs, name, g);
    var (log1, c1) := ProcessEvent(log, c, rotate).value;
    NotedWritten(Events(outs), log, c, rotate);
    ContinuedEvents(outs, rotate);
    if !upto.Finishing? {
      FinishedOrder(cfg, log, log1, rotate);
      NewPrefaceNotes(cfg, log1, c1, Continued(outs, rotate), name, g, upto);
      OtherPreface(cfg, log, log1, g, name, upto);
    }
  }

  lemma FinishedOrder(cfg: Config, log: Log, log1: Log, rotate: Event)
    requires log.files != [] && SameBefore(log, log1)
    requires LastFile(log1).evs == LastFile(log).evs + [StoredAs(Ended, rotate)]
    ensures Order(log1.files) == Order(log.files)
    ensures SM.AllGtids(cfg.base, log1.files) == SM.AllGtids(cfg.base, log.files)
  {
    hide Order, SM.AllGtids;
    OrderOfLast(cfg.base, log, log1, [StoredAs(Ended, rotate)]);
    SM.GtidsOne(StoredAs(Ended, rotate));
    OneId(StoredAs(Ended, rotate));
  }

  lemma OtherPreface(cfg: Config, log: Log, log1: Log, g: Generated, name: Name, upto: Part)
    requires SM.AllGtids(cfg.base, log1.files) == SM.AllGtids(cfg.base, log.files)
    ensures PrefaceEvents(cfg, log1.files, g, name, upto) == PrefaceEvents(cfg, log.files, g, name, upto)
  {
  }

  /** The lists noted while an event is handled are those of the files it makes. */
  lemma HandledIs(cfg: Config, log: Log, c: Ctx, outs: seq<Output>, e: Event, g: Generated, left: nat,
                  id: Option<Gtid>, upto: Part)
    requires Going(cfg, log, c, outs, left, id) && (left > 0 ==> id.Some?)
    requires !IsSkipped(e) && LeftAfter(left, e).Some? && AllFits(cfg, log, c, e, g)
    ensures Handled(cfg, Events(outs), log, c, e, g, upto) == HandledEvents(cfg, log, c, outs, e, g, upto)
  {
    hide ProcessEvent, Paused, Connected, NewFile, CurrentPosition, Relocated, NewFileFits, RoomFor, BodyOk, PhaseOf,
      FileEvents, FileNotes, Noted, IsWritten, Extended, Order, Opened;
    GoingBasics(cfg, log, c, outs, left, id);
    if NeedsFile(cfg, log, c) {
      if c.IsFresh() {
        FreshNotes(cfg, log, outs, g, upto);
      } else {
        NextNotes(cfg, log, c, outs, g, upto);
      }
    }
    if upto.Storing? { StoringNoted(cfg, log, c, outs, e, g, left, id); }
  }

  /** The event itself is noted. */
  lemma StoringNoted(cfg: Config, log: Log, c: Ctx, outs: seq<Output>, e: Event, g: Generated, left: nat,
                     id: Option<Gtid>)
    requires Going(cfg, log, c, outs, left, id) && (left > 0 ==> id.Some?)
    requires !IsSkipped(e) && LeftAfter(left, e).Some? && AllFits(cfg, log, c, e, g)
    ensures g.body.Some?
    ensures var r := if NeedsFile(cfg, log, c) then NewFile(cfg, log, c, g) else Ok((log, c));
      && r.Ok?
      && var e' := Relocated(r.value.0, e, g.body.value);
         forall j :: Noted(j, r.value.0, r.value.1, e') == Extended(j, e')
  {
    hide ProcessEvent, Paused, Connected, NewFile, CurrentPosition, Relocated, NewFileFits, RoomFor, BodyOk, PhaseOf,
      FileEvents, Noted, IsWritten, Extended, Order, Opened, Since, SameMarks;
    GoingBasics(cfg, log, c, outs, left, id);
    var log1, c1, outs1 := log, c, outs;
    if NeedsFile(cfg, log, c) {
      outs1 := NewFileOpens(cfg, log, c, outs, g);
      OpenedBasics(cfg, log, NewFile(cfg, log, c, g), outs1);
      log1, c1 := NewFile(cfg, log, c, g).value.0, NewFile(cfg, log, c, g).value.1;
    } else {
      ConnectedBasics(cfg, log, c, outs);
    }
    StoreOne(cfg, log1, c1, outs1, e, g.body.value, if NeedsFile(cfg, log, c) then 0 else left, id);
    var e' := Relocated(log1, e, g.body.value);
    forall j ensures Noted(j, log1, c1, e') == Extended(j, e') {
      NotedWritten(j, log1, c1, e');
    }
  }

  lemma OpenedBasics(cfg: Config, was: Log, r: Result<(Log, Ctx)>, outs: seq<Output>)
    requires Opened(cfg, was, r, outs)
    ensures r.Ok? && outs != [] && Connected(cfg, r.value.0, r.value.1, outs) && MayBegin(cfg, r.value.0, outs)
    ensures Left(PhaseOf(GtidBased, LastOut(outs).f.events)) == 0
  {
    hide Conn, FilesMade, Fits, PhaseOf;
  }
}
