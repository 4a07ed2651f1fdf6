/** rewrite_and_process_binlog_event on the real storage state. */
module RewriteStorage {
  import opened Prelude
  import opened BinlogNames
  import opened ReaderContext
  import opened Streaming
  import opened Sessions
  import opened PurgedPast
  import opened Application
  import opened EndToEnd
  import opened RewriteMode
  import opened RewriteCrashes
  import opened RewriteSessions
  import SM = StorageModel
  import SR = StorageRuns
  import R = Recovery

  // ----- app.cpp on the storage --------------------------------------------------------

  /** The readings of the clock for the generated events and for the event itself. */
  ghost predicate Clocked(clocks: seq<seq<nat>>) {
    Timed(clocks, 5)
  }

  ghost function AppPreface(cfg: Config, s: State, c: Ctx, name: Name, g: Generated,
                            clocks: seq<seq<nat>>): Result<(State, Ctx)>
    requires Clocked(clocks)
  {
    var r1 := AppEvent(s, c, ArtificialRotate(name, MAGIC_OFFSET), clocks[0]);
    if r1.Err? then Err
    else
      var r2 := AppEvent(r1.value.0, r1.value.1, FdeOf(g, name), clocks[1]);
      if r2.Err? then Err else AppEvent(r2.value.0, r2.value.1, AppPgl(cfg, r2.value.0, g, name), clocks[2])
  }

  ghost function AppPgl(cfg: Config, s: State, g: Generated, name: Name): Event {
    Made(PreviousGtids, Blob(g.pglTs, cfg.encode(s.GetGtids())), MAGIC_OFFSET + |g.fde.data|, name)
  }

  ghost function AppFileToUse(cfg: Config, s: State, c: Ctx): Option<Name> {
    if s.IsEmpty() then Some(cfg.first) else if c.IsFresh() then Some(s.Current().name) else Next(s.Current().name)
  }

  ghost predicate AppNeedsFile(cfg: Config, s: State, c: Ctx) {
    c.IsFresh() || (c.AtBoundary() && s.CurrentPosition() >= cfg.fileSize)
  }

  ghost function AppRotate(s: State, g: Generated, name: Name): Event {
    Made(Rotate, g.rotate, s.CurrentPosition(), name)
  }

  ghost function AppNewFile(cfg: Config, s: State, c: Ctx, g: Generated, clocks: seq<seq<nat>>): Result<(State, Ctx)>
    requires Clocked(clocks)
  {
    var name := AppFileToUse(cfg, s, c);
    if name.None? then Err
    else if c.IsFresh() then AppPreface(cfg, s, c, name.value, g, clocks)
    else
      var r := AppEvent(s, c, AppRotate(s, g, name.value), clocks[3]);
      if r.Err? then Err else AppPreface(cfg, r.value.0, r.value.1, name.value, g, clocks)
  }

  ghost function AppRelocated(s: State, e: Event, data: seq<Byte>): Event {
    RelocatedAt(s.CurrentPosition(), s.incSeq, e, data)
  }

  /** rewrite_and_process_binlog_event: everything it asks is asked of the storage. */
  ghost function AppRewrite(cfg: Config, s: State, c: Ctx, e: Event, g: Generated,
                            clocks: seq<seq<nat>>): Result<(State, Ctx)>
    requires Clocked(clocks)
  {
    if IsSkipped(e) then
      if e.code.FormatDescription? && !g.checksums then Err else Ok((s, c))
    else
      var r := if AppNeedsFile(cfg, s, c) then AppNewFile(cfg, s, c, g, clocks) else Ok((s, c));
      if r.Err? || g.body.None? then Err
      else AppEvent(r.value.0, r.value.1, AppRelocated(r.value.0, e, g.body.value), clocks[4])
  }

  /** The storage, the reader, the event and the clock at a part of it, if it gets there. */
  ghost function AppPrefacePart(cfg: Config, s: State, c: Ctx, name: Name, g: Generated, clocks: seq<seq<nat>>,
                                part: Part)
    : Option<(State, Ctx, Event, seq<nat>)>
    requires Clocked(clocks)
  {
    var open := ArtificialRotate(name, MAGIC_OFFSET);
    if part.Opening? then Some((s, c, open, clocks[0]))
    else
      var r1 := AppEvent(s, c, open, clocks[0]);
      if r1.Err? then None
      else if part.Describing? then Some((r1.value.0, r1.value.1, FdeOf(g, name), clocks[1]))
      else
        var r2 := AppEvent(r1.value.0, r1.value.1, FdeOf(g, name), clocks[1]);
        if r2.Err? || !part.Prefacing? then None
        else Some((r2.value.0, r2.value.1, AppPgl(cfg, r2.value.0, g, name), clocks[2]))
  }

  ghost function AppPart(cfg: Config, s: State, c: Ctx, e: Event, g: Generated, clocks: seq<seq<nat>>, part: Part)
    : Option<(State, Ctx, Event, seq<nat>)>
    requires Clocked(clocks)
  {
    if IsSkipped(e) then None
    else if part.Storing? then
      var r := if AppNeedsFile(cfg, s, c) then AppNewFile(cfg, s, c, g, clocks) else Ok((s, c));
      if r.Err? || g.body.None? then None
      else Some((r.value.0, r.value.1, AppRelocated(r.value.0, e, g.body.value), clocks[4]))
    else if !AppNeedsFile(cfg, s, c) || AppFileToUse(cfg, s, c).None? then None
    else
      var name := AppFileToUse(cfg, s, c).value;
      if c.IsFresh() then AppPrefacePart(cfg, s, c, name, g, clocks, part)
      else
        var rotate := AppRotate(s, g, name);
        var r := AppEvent(s, c, rotate, clocks[3]);
        if part.Finishing? then Some((s, c, rotate, clocks[3]))
        else if r.Err? then None
        else AppPrefacePart(cfg, r.value.0, r.value.1, name, g, clocks, part)
  }

  // ----- one event ---------------------------------------------------------------------

  /** The log of the storage with what has been purged before it. */
  ghost function View(past: seq<FileLog>, h: Hist): Log {
    Unpurged(past, SR.Abs(h))
  }

  /** The storage stands for a log behind what has been purged. */
  ghost predicate Behind(cfg: Config, s: State, past: seq<FileLog>, h: Hist) {
    Tidy(s, h) && s.mode == GtidBased && h.base == SM.AllGtids(cfg.base, past) && Covers(past, SR.Abs(h))
  }

  /** Every generated event has bytes. */
  ghost predicate Substantial(cfg: Config, g: Generated) {
    && g.rotate.data != [] && g.fde.data != [] && (g.body.Some? ==> g.body.value != [])
    && forall gtids :: cfg.encode(gtids) != []
  }

  lemma ViewBasics(past: seq<FileLog>, h: Hist, e: Event)
    requires Covers(past, SR.Abs(h))
    ensures View(past, h).open == h.open && See(View(past, h)) == See(SR.Abs(h))
    ensures RotatesAway(View(past, h), e) <==> RotatesAway(SR.Abs(h), e)
  {
    hide SR.Abs;
    SeeUnpurged(past, SR.Abs(h));
    Open(h);
  }

  lemma DroppingNothing(log: Log, e: Event)
    requires !RotatesAway(log, e)
    ensures !Leaks(log, e)
  {
  }

  /** An event that the log accepts and that drops nothing is accepted by the storage. */
  lemma Linked(cfg: Config, s: State, past: seq<FileLog>, h: Hist, c: Ctx, e: Event, clock: seq<nat>) returns (h': Hist)
    requires Behind(cfg, s, past, h) && |clock| == 3 && ProcessEvent(View(past, h), c, e).Ok? && Real(e)
    requires !RotatesAway(View(past, h), e)
    ensures AppEvent(s, c, e, clock).Ok? && Behind(cfg, AppEvent(s, c, e, clock).value.0, past, h')
    ensures ProcessEvent(View(past, h), c, e) == Ok((View(past, h'), AppEvent(s, c, e, clock).value.1))
    ensures Process(c, e).Ok? && AppEvent(s, c, e, clock).value.1 == Process(c, e).value.0
  {
    hide Tidy, SR.Abs, ProcessEvent, AppEvent, Process, Covers, Leaks, RotatesAway, SM.AllGtids;
    ViewBasics(past, h, e);
    EventUnpurged(past, SR.Abs(h), c, e);
    AcceptedProcess(SR.Abs(h), c, e);
    DroppingNothing(SR.Abs(h), e);
    if e.IsArtificialRotate() { RotateIsInfo(c, e); }
    h' := AppEventIff(s, h, c, e, clock);
    EventMode(s, c, e, clock);
    ContextOf(s, c, e, clock);
  }

  lemma CallLeavesNone(s: State, op: SR.Op, now: nat)
    requires s.boundary == 0 && SR.Apply(s, op, now).Ok? && (op.Write? ==> !op.e.boundary)
    ensures SR.Apply(s, op, now).value.boundary == 0
  {
  }

  lemma {:induction false} CallsLeaveNone(s: State, ops: seq<SR.Op>, clock: seq<nat>)
    requires |clock| == |ops| && s.boundary == 0 && SR.Run(s, ops, clock).Ok?
    requires forall i :: 0 <= i < |ops| && ops[i].Write? ==> !ops[i].e.boundary
    ensures SR.Run(s, ops, clock).value.boundary == 0
    decreases |ops|
  {
    hide SR.Apply;
    if ops != [] {
      var n := |ops| - 1;
      CallsLeaveNone(s, ops[..n], clock[..n]);
      CallLeavesNone(SR.Run(s, ops[..n], clock[..n]).value, ops[n], clock[n]);
    }
  }

  /** Events that end no transaction leave no complete transaction in the buffer. */
  lemma BoundaryStays(s: State, c: Ctx, e: Event, clock: seq<nat>)
    requires |clock| == 3 && s.boundary == 0 && AppEvent(s, c, e, clock).Ok?
    requires Process(c, e).Ok? && (Process(c, e).value.1 || !Process(c, e).value.0.AtBoundary())
    ensures AppEvent(s, c, e, clock).value.0.boundary == 0
  {
    hide SR.Run, Process;
    var (c', info) := Process(c, e).value;
    var ops := OpsFor(SeeState(s), c', info, e).value;
    CallsLeaveNone(s, ops, clock[..|ops|]);
  }

  lemma EventMode(s: State, c: Ctx, e: Event, clock: seq<nat>)
    requires |clock| == 3 && AppEvent(s, c, e, clock).Ok?
    ensures AppEvent(s, c, e, clock).value.0.mode == s.mode
  {
    hide SR.Run, Process;
    var (c', info) := Process(c, e).value;
    var ops := OpsFor(SeeState(s), c', info, e).value;
    RunMode(s, ops, clock[..|ops|]);
  }

  lemma ContextOf(s: State, c: Ctx, e: Event, clock: seq<nat>)
    requires |clock| == 3 && AppEvent(s, c, e, clock).Ok?
    ensures Process(c, e).Ok? && AppEvent(s, c, e, clock).value.1 == Process(c, e).value.0
  {
    hide Process, SR.Run;
  }

  // ----- the reader --------------------------------------------------------------------

  lemma DescriptionIsNoBoundary(c: Ctx, e: Event)
    requires Process(c, e).Ok? && e.code.FormatDescription?
    ensures !Process(c, e).value.0.AtBoundary()
  {
  }

  lemma CyclesCount(c: Ctx, e: Event)
    requires Process(c, e).Ok?
    ensures Process(c, e).value.0.cycle == c.cycle + if e.IsArtificialRotate() then 1 else 0
  {
  }

  lemma OthersAreWritten(log: Log, c: Ctx, e: Event)
    requires ProcessEvent(log, c, e).Ok? && !IsSkipped(e)
    ensures log.open
  {
    hide Process;
    NeverInfo(c, e);
    var (c', info) := Process(c, e).value;
    AcceptedOne(log, SR.Write(Written(e, c')));
  }

  lemma NeverInfo(c: Ctx, e: Event)
    requires Process(c, e).Ok? && !IsSkipped(e)
    ensures !Process(c, e).value.1
  {
  }

  lemma TerminatorCloses(log: Log, c: Ctx, e: Event)
    requires ProcessEvent(log, c, e).Ok? && e.IsTerminator()
    ensures !ProcessEvent(log, c, e).value.0.open
  {
    hide Process;
    TerminatorIsBoundary(c, e);
    var (c', info) := Process(c, e).value;
    AcceptedTwo(log, SR.Write(Written(e, c')), SR.Close);
  }

  // ----- what the storage reports ------------------------------------------------------

  lemma ClosedIsClean(s: State, h: Hist)
    requires Tidy(s, h) && !h.open
    ensures s.boundary == 0
  {
    SM.NoBytes();
  }

  lemma SequenceOf(s: State, h: Hist)
    requires Tidy(s, h) && h.open
    ensures s.incSeq == LastSequence(SR.Abs(h)) && SR.Abs(h).files != []
  {
    assert LastFile(SR.Abs(h)).evs + SR.Abs(h).tail == h.Last().evs + h.ready + h.tail;
  }

  lemma SequenceSeen(cfg: Config, s: State, past: seq<FileLog>, h: Hist)
    requires Behind(cfg, s, past, h) && h.open
    ensures s.incSeq == LastSequence(View(past, h))
  {
    hide Tidy, SR.Abs, SM.LastSeq;
    SequenceOf(s, h);
    assert LastFile(View(past, h)) == LastFile(SR.Abs(h));
  }

  /** Flushed or complete in the buffer. */
  ghost function Known(s: State): set<Gtid> {
    s.GetGtids() + s.bufGtids
  }

  lemma BufferedGtids(s: State, h: Hist)
    requires Tidy(s, h) && s.mode == GtidBased
    ensures s.GetGtids() == SM.AllGtids(h.base, h.files) && s.bufGtids == SM.Gtids(h.ready)
    ensures s.boundary == 0 ==> h.ready == []
    ensures h.files == [] ==> h.ready == []
  {
    hide SM.RecordsOf, SM.DiskOf, SM.Gtids, SM.AllGtids;
    SM.GetGtidsTelescopes(s, h);
    if h.ready != [] { SM.BytesNonEmpty(h.ready); }
  }

  lemma FlushedGtids(h: Hist)
    requires h.files == [] ==> h.ready == []
    ensures SM.AllGtids(h.base, SR.Abs(h).files) == SM.AllGtids(h.base, h.files) + SM.Gtids(h.ready)
  {
    if h.files != [] {
      var n := |h.files| - 1;
      assert SR.Abs(h).files[..n] == h.files[..n];
      SM.GtidsConcat(h.files[n].evs, h.ready);
    }
  }

  lemma KnownOf(s: State, h: Hist)
    requires Tidy(s, h) && s.mode == GtidBased
    ensures Known(s) == SM.AllGtids(h.base, SR.Abs(h).files)
    ensures s.boundary == 0 ==> s.bufGtids == {}
  {
    hide Tidy, SR.Abs, SM.AllGtids;
    BufferedGtids(s, h);
    FlushedGtids(h);
  }

  lemma KnownSeen(cfg: Config, s: State, past: seq<FileLog>, h: Hist)
    requires Behind(cfg, s, past, h)
    ensures Known(s) == SM.AllGtids(cfg.base, View(past, h).files)
    ensures s.boundary == 0 ==> s.GetGtids() == Known(s)
  {
    hide Tidy, SR.Abs, SM.AllGtids;
    KnownOf(s, h);
    AllKnown(cfg.base, past, SR.Abs(h).files);
  }

  lemma PositionSeen(cfg: Config, s: State, past: seq<FileLog>, h: Hist, c: Ctx)
    requires Behind(cfg, s, past, h)
    ensures AppFileToUse(cfg, s, c) == FileToUse(cfg, View(past, h), c)
    ensures s.CurrentPosition() == CurrentPosition(View(past, h))
    ensures AppNeedsFile(cfg, s, c) <==> NeedsFile(cfg, View(past, h), c)
    ensures c.IsFresh() && FileToUse(cfg, View(past, h), c).Some? ==>
      !RotatesAway(View(past, h), ArtificialRotate(FileToUse(cfg, View(past, h), c).value, MAGIC_OFFSET))
  {
    hide SM.Inv, SR.Abs, SM.AllGtids, CurrentPosition;
    SameView(s, h);
    SeeUnpurged(past, SR.Abs(h));
    OpenWithFile(s, h);
    var log := View(past, h);
    assert log.files != [] ==> CurrentName(log) == Some(LastFile(log).name);
  }

  lemma OpenWithFile(s: State, h: Hist)
    requires SM.Inv(s, h)
    ensures SR.Abs(h).files == [] ==> !SR.Abs(h).open
  {
  }

  // ----- a new file --------------------------------------------------------------------

  lemma OpenLinked(cfg: Config, s: State, past: seq<FileLog>, h: Hist, c: Ctx, name: Name, clock: seq<nat>)
    returns (h': Hist)
    requires var e := ArtificialRotate(name, MAGIC_OFFSET);
      && Behind(cfg, s, past, h) && s.boundary == 0 && |clock| == 3
      && ProcessEvent(View(past, h), c, e).Ok? && !RotatesAway(View(past, h), e)
    ensures var e := ArtificialRotate(name, MAGIC_OFFSET);
      var r := AppEvent(s, c, e, clock);
      && r.Ok? && Behind(cfg, r.value.0, past, h') && r.value.0.boundary == 0 && r.value.1.cycle == c.cycle + 1
      && ProcessEvent(View(past, h), c, e) == Ok((View(past, h'), r.value.1))
  {
    hide Behind, View, ProcessEvent, AppEvent, Process, RotatesAway;
    var e := ArtificialRotate(name, MAGIC_OFFSET);
    h' := Linked(cfg, s, past, h, c, e, clock);
    RotateIsInfo(c, e);
    BoundaryStays(s, c, e, clock);
    CyclesCount(c, e);
  }

  lemma FdeLinked(cfg: Config, s: State, past: seq<FileLog>, h: Hist, c: Ctx, name: Name, g: Generated, clock: seq<nat>)
    returns (h': Hist)
    requires Behind(cfg, s, past, h) && s.boundary == 0 && |clock| == 3 && Substantial(cfg, g)
    requires ProcessEvent(View(past, h), c, FdeOf(g, name)).Ok?
    ensures var r := AppEvent(s, c, FdeOf(g, name), clock);
      && r.Ok? && Behind(cfg, r.value.0, past, h') && r.value.0.boundary == 0 && r.value.1.cycle == c.cycle
      && ProcessEvent(View(past, h), c, FdeOf(g, name)) == Ok((View(past, h'), r.value.1))
      && AppPgl(cfg, r.value.0, g, name) == PglOf(cfg, View(past, h').files, g, name)
  {
    hide Behind, View, ProcessEvent, AppEvent, Process;
    var e := FdeOf(g, name);
    h' := Linked(cfg, s, past, h, c, e, clock);
    DescriptionIsNoBoundary(c, e);
    BoundaryStays(s, c, e, clock);
    CyclesCount(c, e);
    KnownSeen(cfg, AppEvent(s, c, e, clock).value.0, past, h');
  }

  lemma PrefaceLinked(cfg: Config, s: State, past: seq<FileLog>, h: Hist, c: Ctx, name: Name, g: Generated,
                      clocks: seq<seq<nat>>)
    returns (h': Hist)
    requires Behind(cfg, s, past, h) && s.boundary == 0
    requires Clocked(clocks) && Substantial(cfg, g) && Preface(cfg, View(past, h), c, name, g).Ok?
    requires !RotatesAway(View(past, h), ArtificialRotate(name, MAGIC_OFFSET))
    ensures var r := AppPreface(cfg, s, c, name, g, clocks);
      && r.Ok? && Behind(cfg, r.value.0, past, h') && !r.value.1.IsFresh()
      && Preface(cfg, View(past, h), c, name, g) == Ok((View(past, h'), r.value.1))
  {
    hide Behind, View, ProcessEvent, AppEvent, Process, RotatesAway, AppPgl;
    var h1 := OpenLinked(cfg, s, past, h, c, name, clocks[0]);
    var (s1, c1) := AppEvent(s, c, ArtificialRotate(name, MAGIC_OFFSET), clocks[0]).value;
    var h2 := FdeLinked(cfg, s1, past, h1, c1, name, g, clocks[1]);
    var (s2, c2) := AppEvent(s1, c1, FdeOf(g, name), clocks[1]).value;
    var e3 := PglOf(cfg, View(past, h2).files, g, name);
    NoArtificial(View(past, h2), e3);
    h' := Linked(cfg, s2, past, h2, c2, e3, clocks[2]);
    CyclesCount(c2, e3);
  }

  lemma RotateLinked(cfg: Config, s: State, past: seq<FileLog>, h: Hist, c: Ctx, name: Name, g: Generated,
                     clock: seq<nat>)
    returns (h': Hist)
    requires Behind(cfg, s, past, h) && |clock| == 3 && Substantial(cfg, g)
    requires ProcessEvent(View(past, h), c, Made(Rotate, g.rotate, CurrentPosition(View(past, h)), name)).Ok?
    ensures var e := AppRotate(s, g, name);
      var r := AppEvent(s, c, e, clock);
      && e == Made(Rotate, g.rotate, CurrentPosition(View(past, h)), name)
      && r.Ok? && Behind(cfg, r.value.0, past, h') && r.value.0.boundary == 0
      && ProcessEvent(View(past, h), c, e) == Ok((View(past, h'), r.value.1))
    ensures forall x :: !RotatesAway(View(past, h'), x)
  {
    hide Tidy, SR.Abs, ProcessEvent, AppEvent, Process, CurrentPosition, SM.AllGtids, Covers;
    PositionSeen(cfg, s, past, h, c);
    var e := AppRotate(s, g, name);
    h' := Linked(cfg, s, past, h, c, e, clock);
    TerminatorCloses(View(past, h), c, e);
    Open(h');
    ClosedIsClean(AppEvent(s, c, e, clock).value.0, h');
  }

  lemma NewFileLinked(cfg: Config, s: State, past: seq<FileLog>, h: Hist, c: Ctx, g: Generated, clocks: seq<seq<nat>>)
    returns (h': Hist)
    requires Behind(cfg, s, past, h) && (c.IsFresh() ==> s.boundary == 0)
    requires Clocked(clocks) && Substantial(cfg, g) && NewFile(cfg, View(past, h), c, g).Ok?
    ensures var r := AppNewFile(cfg, s, c, g, clocks);
      && r.Ok? && Behind(cfg, r.value.0, past, h') && !r.value.1.IsFresh()
      && NewFile(cfg, View(past, h), c, g) == Ok((View(past, h'), r.value.1))
  {
    hide Behind, View, ProcessEvent, AppEvent, FileToUse, AppFileToUse, AppPreface, Preface, CurrentPosition, AppRotate,
      Substantial, RotatesAway;
    PositionSeen(cfg, s, past, h, c);
    var name := AppFileToUse(cfg, s, c).value;
    if c.IsFresh() {
      h' := PrefaceLinked(cfg, s, past, h, c, name, g, clocks);
    } else {
      var h1 := RotateLinked(cfg, s, past, h, c, name, g, clocks[3]);
      var (s1, c1) := AppEvent(s, c, AppRotate(s, g, name), clocks[3]).value;
      h' := PrefaceLinked(cfg, s1, past, h1, c1, name, g, clocks);
    }
  }

  // ----- an event ----------------------------------------------------------------------

  lemma SameKind(pos: nat, last: nat, e: Event, data: seq<Byte>)
    ensures RelocatedAt(pos, last, e, data).data == data && RelocatedAt(pos, last, e, data).code == e.code
    ensures RelocatedAt(pos, last, e, data).artificial == e.artificial
  {
  }

  /** The event itself, once there is a file for it. */
  lemma StoreLinked(cfg: Config, s: State, past: seq<FileLog>, h: Hist, c: Ctx, e: Event, data: seq<Byte>,
                    clock: seq<nat>)
    returns (h': Hist)
    requires Behind(cfg, s, past, h) && |clock| == 3 && !IsSkipped(e) && data != []
    requires ProcessEvent(View(past, h), c, Relocated(View(past, h), e, data)).Ok?
    ensures var e' := AppRelocated(s, e, data);
      var r := AppEvent(s, c, e', clock);
      && e' == Relocated(View(past, h), e, data) && !IsSkipped(e') && Real(e') && !e'.IsArtificialRotate()
      && r.Ok? && Behind(cfg, r.value.0, past, h') && r.value.1.cycle == c.cycle
      && ProcessEvent(View(past, h), c, e') == Ok((View(past, h'), r.value.1))
  {
    hide Tidy, SR.Abs, ProcessEvent, AppEvent, Process, CurrentPosition, LastSequence, RelocatedAt, Covers, SM.AllGtids;
    var log := View(past, h);
    var e' := Relocated(log, e, data);
    SameKind(CurrentPosition(log), LastSequence(log), e, data);
    OthersAreWritten(log, c, e');
    Open(h);
    SequenceSeen(cfg, s, past, h);
    PositionSeen(cfg, s, past, h, c);
    h' := Linked(cfg, s, past, h, c, e', clock);
    CyclesCount(c, e');
  }

  /** What the log accepts in rewrite mode the storage accepts, and then it stands for the log's result. */
  lemma RewriteLinked(cfg: Config, s: State, past: seq<FileLog>, h: Hist, c: Ctx, e: Event, g: Generated,
                      clocks: seq<seq<nat>>)
    returns (h': Hist)
    requires Behind(cfg, s, past, h) && (c.IsFresh() ==> s.boundary == 0)
    requires Clocked(clocks) && Substantial(cfg, g) && RewriteEvent(cfg, View(past, h), c, e, g).Ok?
    ensures var r := AppRewrite(cfg, s, c, e, g, clocks);
      && r.Ok? && Behind(cfg, r.value.0, past, h') && (r.value.1.IsFresh() ==> r.value.0.boundary == 0)
      && RewriteEvent(cfg, View(past, h), c, e, g) == Ok((View(past, h'), r.value.1))
  {
    hide Behind, View, ProcessEvent, AppEvent, NewFile, AppNewFile, Relocated, AppRelocated, NeedsFile, AppNeedsFile;
    h' := h;
    if !IsSkipped(e) {
      PositionSeen(cfg, s, past, h, c);
      NeededFresh(cfg, s, c);
      var h1, s1, c1 := h, s, c;
      if NeedsFile(cfg, View(past, h), c) {
        h1 := NewFileLinked(cfg, s, past, h, c, g, clocks);
        s1, c1 := AppNewFile(cfg, s, c, g, clocks).value.0, AppNewFile(cfg, s, c, g, clocks).value.1;
      }
      h' := StoreLinked(cfg, s1, past, h1, c1, e, g.body.value, clocks[4]);
    }
  }

  // ----- its parts ---------------------------------------------------------------------

  /** The storage at a part stands for the log at that part, and the part's event is accepted. */
  ghost predicate PartStands(cfg: Config, past: seq<FileLog>, x: (State, Ctx, Event, seq<nat>), h: Hist) {
    && Behind(cfg, x.0, past, h) && ProcessEvent(View(past, h), x.1, x.2).Ok? && Real(x.2) && |x.3| == 3
    && !RotatesAway(View(past, h), x.2)
  }

  lemma PrefacePartLinked(cfg: Config, s: State, past: seq<FileLog>, h: Hist, c: Ctx, name: Name, g: Generated,
                          clocks: seq<seq<nat>>, part: Part)
    returns (h1: Hist)
    requires Behind(cfg, s, past, h) && s.boundary == 0
    requires Clocked(clocks) && Substantial(cfg, g) && Preface(cfg, View(past, h), c, name, g).Ok?
    requires !RotatesAway(View(past, h), ArtificialRotate(name, MAGIC_OFFSET))
    requires AppPrefacePart(cfg, s, c, name, g, clocks, part).Some?
    ensures var x := AppPrefacePart(cfg, s, c, name, g, clocks, part).value;
      && PartStands(cfg, past, x, h1)
      && PrefacePart(cfg, View(past, h), c, name, g, part) == Some((View(past, h1), x.1, x.2))
  {
    hide Behind, View, ProcessEvent, AppEvent, Process, AppPgl;
    h1 := h;
    if !part.Opening? {
      h1 := OpenLinked(cfg, s, past, h, c, name, clocks[0]);
      if !part.Describing? {
        var (s1, c1) := AppEvent(s, c, ArtificialRotate(name, MAGIC_OFFSET), clocks[0]).value;
        h1 := FdeLinked(cfg, s1, past, h1, c1, name, g, clocks[1]);
      }
    }
  }

  lemma PartLinked(cfg: Config, s: State, past: seq<FileLog>, h: Hist, c: Ctx, e: Event, g: Generated,
                   clocks: seq<seq<nat>>, part: Part)
    returns (h1: Hist)
    requires Behind(cfg, s, past, h) && (c.IsFresh() ==> s.boundary == 0)
    requires Clocked(clocks) && Substantial(cfg, g) && RewriteEvent(cfg, View(past, h), c, e, g).Ok?
    requires AppPart(cfg, s, c, e, g, clocks, part).Some?
    ensures var x := AppPart(cfg, s, c, e, g, clocks, part).value;
      && PartStands(cfg, past, x, h1)
      && PartOf(cfg, View(past, h), c, e, g, part) == Some((View(past, h1), x.1, x.2))
  {
    hide Behind, View, ProcessEvent, AppEvent, AppPreface, Preface, Relocated, AppRelocated, NeedsFile, AppNeedsFile,
      FileToUse, AppFileToUse, AppPrefacePart, PrefacePart, AppRotate, CurrentPosition, RotatesAway;
    PositionSeen(cfg, s, past, h, c);
    NeededFresh(cfg, s, c);
    h1 := h;
    if part.Storing? {
      var s1, c1 := s, c;
      if NeedsFile(cfg, View(past, h), c) {
        h1 := NewFileLinked(cfg, s, past, h, c, g, clocks);
        s1, c1 := AppNewFile(cfg, s, c, g, clocks).value.0, AppNewFile(cfg, s, c, g, clocks).value.1;
      }
      var h2 := StoreLinked(cfg, s1, past, h1, c1, e, g.body.value, clocks[4]);
      NoArtificial(View(past, h1), AppRelocated(s1, e, g.body.value));
    } else {
      var name := AppFileToUse(cfg, s, c).value;
      if c.IsFresh() {
        h1 := PrefacePartLinked(cfg, s, past, h, c, name, g, clocks, part);
      } else {
        var h0 := RotateLinked(cfg, s, past, h, c, name, g, clocks[3]);
        if part.Finishing? {
          RotateIsReal(cfg, s, g, name);
          NoArtificial(View(past, h), AppRotate(s, g, name));
        } else {
          var (s1, c1) := AppEvent(s, c, AppRotate(s, g, name), clocks[3]).value;
          h1 := PrefacePartLinked(cfg, s1, past, h0, c1, name, g, clocks, part);
        }
      }
    }
  }

  lemma NeededFresh(cfg: Config, s: State, c: Ctx)
    ensures c.IsFresh() ==> AppNeedsFile(cfg, s, c)
  {
  }

  lemma NoArtificial(log: Log, e: Event)
    requires !e.IsArtificialRotate()
    ensures !RotatesAway(log, e)
  {
  }

  lemma RotateIsReal(cfg: Config, s: State, g: Generated, name: Name)
    requires Substantial(cfg, g)
    ensures Real(AppRotate(s, g, name)) && !AppRotate(s, g, name).IsArtificialRotate()
  {
  }

  /** A crash inside a part leaves what the log says that part may leave. */
  lemma PartCrash(cfg: Config, s: State, past: seq<FileLog>, h: Hist, c: Ctx, e: Event, g: Generated,
                  clocks: seq<seq<nat>>, part: Part, i: nat, snap: SM.Snap, img: SM.Disk)
    returns (files: seq<FileLog>)
    requires Behind(cfg, s, past, h) && (c.IsFresh() ==> s.boundary == 0)
    requires Clocked(clocks) && Substantial(cfg, g) && RewriteEvent(cfg, View(past, h), c, e, g).Ok?
    requires AppPart(cfg, s, c, e, g, clocks, part).Some?
    requires var (s1, c1, e1, clock) := AppPart(cfg, s, c, e, g, clocks, part).value;
      CrashIn(s1, CallsFor(s1, c1, e1), clock, i, snap, img)
    requires !R.Load(img, GtidBased, SM.Streaming).Refused?
    ensures img == SM.DiskOf(GtidBased, SM.AllGtids(cfg.base, past), files) && SM.DistinctNames(files)
    ensures SM.WholeTransactions(files)
    ensures (past == [] || files != []) && PartLeaves(cfg, View(past, h), c, e, g, part, past + files)
  {
    hide Tidy, SR.Abs, ProcessEvent, AppEvent, Process, CrashIn, CallsFor, R.Load, SM.DiskOf, SM.DistinctNames,
      SM.WholeTransactions, SM.AllGtids, AppPart, PartOf, Trimmed, RewriteEvent, Substantial, RotatesAway, Unpurged,
      Covers;
    var h1 := PartLinked(cfg, s, past, h, c, e, g, clocks, part);
    var (s1, c1, e1, clock) := AppPart(cfg, s, c, e, g, clocks, part).value;
    var h2 := Linked(cfg, s1, past, h1, c1, e1, clock);
    if e1.IsArtificialRotate() { RotateIsInfo(c1, e1); }
    files := CrashInEvent(s1, h1, c1, e1, clock, i, snap, img);
    EventUnpurged(past, SR.Abs(h1), c1, e1);
    if Trimmed(SR.Abs(h1), files) {
      TrimmedUnpurged(past, SR.Abs(h1), files);
    } else {
      TrimmedUnpurged(past, ProcessEvent(SR.Abs(h1), c1, e1).value.0, files);
    }
  }
}
