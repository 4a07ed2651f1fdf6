/**
 * Rewrite mode: transactions are stored in files of the application's own, with generated
 * preambles and terminators and with relocated events.
 */
module RewriteMode {
  import opened Prelude
  import opened BinlogNames
  import opened ReaderContext
  import opened Streaming
  import opened Alignment
  import opened Connections
  import SM = StorageModel
  import SR = StorageRuns

  /** Configuration, the purged GTIDs and the encoder of GTID sets. */
  datatype Config = Config(first: Name, fileSize: nat, base: set<Gtid>, encode: set<Gtid> -> seq<Byte>)

  datatype Blob = Blob(ts: nat, data: seq<Byte>)

  /** The bytes and timestamps of what one call may generate, and the rewritten event (None: the rewriter raised). */
  datatype Generated = Generated(rotate: Blob, fde: Blob, pglTs: nat, body: Option<seq<Byte>>, checksums: bool)

  // ----- rewrite_and_process_binlog_event ----------------------------------------------

  /** create_with_offset for an event that is not an artificial ROTATE. */
  ghost function Made(code: Code, b: Blob, offset: nat, target: Name): Event {
    Event(code, false, b.ts, |b.data|, (offset + |b.data|) % U32, b.data, target, MAGIC_OFFSET, None, 0, 0, true)
  }

  ghost function LastSequence(log: Log): nat {
    if log.files == [] then 0 else SM.LastSeq(LastFile(log).evs + log.tail)
  }

  /** rewriter::rewrite at an offset: the rest of the transaction keeps its length, the sequence number is local. */
  ghost function RelocatedAt(pos: nat, last: nat, e: Event, data: seq<Byte>): Event {
    var e' := e.(data := data, size := |data|, nextPos := (pos + |data|) % U32);
    if !e.IsGtid() then e'
    else e'.(seqno := last + 1,
             txLength := if e.code.GtidTagged? && e.size <= e.txLength then |data| + (e.txLength - e.size)
                         else e.txLength)
  }

  ghost function Relocated(log: Log, e: Event, data: seq<Byte>): Event {
    RelocatedAt(CurrentPosition(log), LastSequence(log), e, data)
  }

  ghost predicate IsSkipped(e: Event) {
    e.code.FormatDescription? || e.code.PreviousGtids? || e.code.Rotate? || e.code.Stop?
  }

  ghost predicate NeedsFile(cfg: Config, log: Log, c: Ctx) {
    c.IsFresh() || (c.AtBoundary() && CurrentPosition(log) >= cfg.fileSize)
  }

  ghost function FileToUse(cfg: Config, log: Log, c: Ctx): Option<Name> {
    if log.files == [] then Some(cfg.first)
    else if c.IsFresh() then CurrentName(log)
    else Next(LastFile(log).name)
  }

  ghost function Preface(cfg: Config, log: Log, c: Ctx, name: Name, g: Generated): Result<(Log, Ctx)> {
    var r1 := ProcessEvent(log, c, ArtificialRotate(name, MAGIC_OFFSET));
    if r1.Err? then Err
    else
      var r2 := ProcessEvent(r1.value.0, r1.value.1, Made(FormatDescription, g.fde, MAGIC_OFFSET, name));
      if r2.Err? then Err
      else
        var pgl := Blob(g.pglTs, cfg.encode(SM.AllGtids(cfg.base, r2.value.0.files)));
        ProcessEvent(r2.value.0, r2.value.1, Made(PreviousGtids, pgl, MAGIC_OFFSET + |g.fde.data|, name))
  }

  /** The three generated events are accepted and leave these files, each of them. */
  ghost predicate PrefaceKeeps(cfg: Config, log: Log, c: Ctx, name: Name, g: Generated, files: seq<FileLog>) {
    var r1 := ProcessEvent(log, c, ArtificialRotate(name, MAGIC_OFFSET));
    && r1.Ok? && r1.value.0.files == files
    && var r2 := ProcessEvent(r1.value.0, r1.value.1, FdeOf(g, name));
       && r2.Ok? && r2.value.0.files == files
       && Preface(cfg, log, c, name, g).Ok? && Preface(cfg, log, c, name, g).value.0.files == files
  }

  ghost function NewFile(cfg: Config, log: Log, c: Ctx, g: Generated): Result<(Log, Ctx)> {
    var name := FileToUse(cfg, log, c);
    if name.None? then Err
    else if c.IsFresh() then Preface(cfg, log, c, name.value, g)
    else
      var r := ProcessEvent(log, c, Made(Rotate, g.rotate, CurrentPosition(log), name.value));
      if r.Err? then Err else Preface(cfg, r.value.0, r.value.1, name.value, g)
  }

  ghost function RewriteEvent(cfg: Config, log: Log, c: Ctx, e: Event, g: Generated): Result<(Log, Ctx)> {
    if IsSkipped(e) then
      if e.code.FormatDescription? && !g.checksums then Err else Ok((log, c))
    else
      var r := if NeedsFile(cfg, log, c) then NewFile(cfg, log, c, g) else Ok((log, c));
      if r.Err? || g.body.None? then Err
      else ProcessEvent(r.value.0, r.value.1, Relocated(r.value.0, e, g.body.value))
  }

  /** ROTATE to the old file, the artificial ROTATE, FORMAT_DESCRIPTION, PREVIOUS_GTIDS, the rewritten event. */
  datatype Part = Finishing | Opening | Describing | Prefacing | Storing

  // ----- the files it makes ------------------------------------------------------------

  /** The number of transactions begun among these events. */
  ghost function Begun(events: seq<Event>): nat {
    if events == [] then 0
    else Begun(events[..|events| - 1]) + if events[|events| - 1].IsGtid() then 1 else 0
  }

  /** Well-formed as far as it goes: every next position is the offset just after its event. */
  ghost predicate SoFar(events: seq<Event>) {
    events == [] ||
    var n := |events| - 1;
    && SoFar(events[..n])
    && events[n].size == |events[n].data| > 0 && events[n].nextPos == Offset(events) < U32
    && !PhaseOf(GtidBased, events).Bad?
  }

  /** Sequence numbers count from one in every file. */
  ghost predicate Numbered(events: seq<Event>) {
    forall k :: 0 <= k < |events| && events[k].IsGtid() ==> events[k].seqno == Begun(events[..k]) + 1
  }

  /** A transaction begins below the size limit unless it is the first of the file or of a connection. */
  ghost predicate Limited(cfg: Config, events: seq<Event>, resumed: set<nat>) {
    forall k :: 0 <= k < |events| && events[k].IsGtid() ==> k == 2 || k in resumed || Offset(events[..k]) < cfg.fileSize
  }

  /** A terminator is the last event of its file unless a connection resumed right behind it. */
  ghost predicate Terminated(events: seq<Event>, resumed: set<nat>) {
    forall k :: 0 <= k < |events| - 1 && events[k].IsTerminator() ==> k + 1 in resumed
  }

  /** The PREVIOUS_GTIDS event holds what the files before this one hold. */
  ghost predicate Prefaced(cfg: Config, before: seq<FileLog>, events: seq<Event>) {
    |events| > 1 ==> events[1].data == cfg.encode(SM.AllGtids(cfg.base, before))
  }

  /** Every terminator is a ROTATE to the start of the next file. */
  ghost predicate PointsOn(f: SrcFile) {
    forall k :: 0 <= k < |f.events| && f.events[k].IsTerminator() ==> IsRotateFrom(f.name, f.events[k])
  }

  /** A file is ended only where the size limit has been reached. */
  ghost predicate Filled(cfg: Config, events: seq<Event>) {
    forall k :: 0 <= k < |events| && events[k].IsTerminator() ==> Offset(events[..k]) >= cfg.fileSize
  }

  ghost predicate IsRotateFrom(name: Name, e: Event) {
    e.code.Rotate? && Next(name) == Some(e.target) && e.targetPos == MAGIC_OFFSET
  }

  /** A file made in rewrite mode and the places in it where a connection resumed. */
  datatype Output = Output(f: SrcFile, resumed: set<nat>)

  ghost predicate Shaped(cfg: Config, before: seq<FileLog>, m: Output) {
    && SoFar(m.f.events) && Numbered(m.f.events) && Limited(cfg, m.f.events, m.resumed)
    && Terminated(m.f.events, m.resumed) && Prefaced(cfg, before, m.f.events) && PointsOn(m.f)
    && Filled(cfg, m.f.events)
  }

  // ----- lists of events, one for each file --------------------------------------------

  ghost function Events(outs: seq<Output>): (j: seq<seq<Event>>)
    ensures |j| == |outs|
  {
    seq(|outs|, i requires 0 <= i < |outs| => outs[i].f.events)
  }

  /** One event more in the last list. */
  ghost function Extended(j: seq<seq<Event>>, e: Event): seq<seq<Event>> {
    if j == [] then j else j[..|j| - 1] + [j[|j| - 1] + [e]]
  }

  /** As much of the lists as the files hold. */
  ghost function Kept(j: seq<seq<Event>>, files: seq<FileLog>): seq<seq<Event>> {
    seq(|files|, i requires 0 <= i < |files| =>
      if i < |j| && |files[i].evs| <= |j[i]| then j[i][..|files[i].evs|] else [])
  }

  lemma ContinuedEvents(outs: seq<Output>, e: Event)
    requires outs != []
    ensures Events(Continued(outs, e)) == Extended(Events(outs), e)
  {
  }

  lemma KeptIs(j: seq<seq<Event>>, files: seq<FileLog>, kept: seq<seq<Event>>)
    requires |kept| == |files| <= |j|
    requires forall i :: 0 <= i < |files| ==> |files[i].evs| <= |j[i]| && kept[i] == j[i][..|files[i].evs|]
    ensures Kept(j, files) == kept
  {
  }

  /** The preface of a new file as far as a part. */
  ghost function PrefaceEvents(cfg: Config, before: seq<FileLog>, g: Generated, name: Name, upto: Part): seq<Event> {
    match upto
    case Opening => []
    case Describing => [FdeOf(g, name)]
    case _ => [FdeOf(g, name), PglOf(cfg, before, g, name)]
  }

  /** What the lists become when a file is needed: a new file with its preface, or the last one again. */
  ghost function FileEvents(cfg: Config, log: Log, c: Ctx, outs: seq<Output>, g: Generated, upto: Part)
    : seq<seq<Event>>
  {
    var j := Events(outs);
    if FileToUse(cfg, log, c).None? then j
    else
      var name := FileToUse(cfg, log, c).value;
      var head := PrefaceEvents(cfg, log.files, g, name, upto);
      if !c.IsFresh() then
        var done := Extended(j, Made(Rotate, g.rotate, CurrentPosition(log), name));
        if upto.Finishing? then done else done + [head]
      else if j == [] then [head]
      else if j[|j| - 1] == [] then j[..|j| - 1] + [head]
      else j
  }

  /** What the lists become when an event is handled as far as a part. */
  ghost function HandledEvents(cfg: Config, log: Log, c: Ctx, outs: seq<Output>, e: Event, g: Generated, upto: Part)
    : seq<seq<Event>>
  {
    var j := if NeedsFile(cfg, log, c) then FileEvents(cfg, log, c, outs, g, upto) else Events(outs);
    var r := if NeedsFile(cfg, log, c) then NewFile(cfg, log, c, g) else Ok((log, c));
    if !upto.Storing? || r.Err? || g.body.None? then j else Extended(j, Relocated(r.value.0, e, g.body.value))
  }

  // ----- one event more in a list ------------------------------------------------------

  lemma SoFarSnoc(events: seq<Event>, e: Event)
    requires SoFar(events) && !NextPhase(GtidBased, PhaseOf(GtidBased, events), e).Bad?
    requires e.size == |e.data| > 0 && e.nextPos == Offset(events) + e.size < U32
    ensures SoFar(events + [e])
    ensures PhaseOf(GtidBased, events + [e]) == NextPhase(GtidBased, PhaseOf(GtidBased, events), e)
    ensures Offset(events + [e]) == e.nextPos
  {
    var all, n := events + [e], |events|;
    assert all[..n] == events && all[..n + 1] == all;
    CopySnoc(GtidBased, all, n);
  }

  lemma {:induction false} SoFarPrefix(events: seq<Event>, n: nat)
    requires SoFar(events) && n <= |events|
    ensures SoFar(events[..n])
    decreases |events|
  {
    hide PhaseOf, Offset;
    if n == |events| {
      assert events[..n] == events;
    } else {
      var m := |events| - 1;
      SoFarPrefix(events[..m], n);
      assert events[..m][..n] == events[..n];
    }
  }

  /** Event k ends where its next position says, and the grammar allows everything up to it. */
  lemma SoFarAt(events: seq<Event>, k: nat)
    requires SoFar(events) && k < |events|
    ensures events[k].size == |events[k].data| > 0 && events[k].nextPos == Offset(events[..k + 1]) < U32
    ensures !PhaseOf(GtidBased, events[..k + 1]).Bad?
  {
    SoFarPrefix(events, k + 1);
  }

  lemma SoFarFacts(events: seq<Event>)
    requires SoFar(events)
    ensures forall k :: 0 <= k < |events| ==> events[k].size == |events[k].data| > 0
    ensures !PhaseOf(GtidBased, events).Bad? && MAGIC_OFFSET <= Offset(events) < U32
  {
    hide SoFar;
    forall k | 0 <= k < |events| ensures events[k].size == |events[k].data| > 0 {
      SoFarAt(events, k);
    }
    if events != [] {
      SoFarAt(events, |events| - 1);
      assert events[..|events|] == events;
      OffsetGrows(events, 0);
    }
  }

  lemma NumberedSnoc(events: seq<Event>, e: Event)
    requires Numbered(events) && (e.IsGtid() ==> e.seqno == Begun(events) + 1)
    ensures Numbered(events + [e])
  {
    var all, n := events + [e], |events|;
    forall k | 0 <= k < |all| && all[k].IsGtid() ensures all[k].seqno == Begun(all[..k]) + 1 {
      if k < n { assert all[..k] == events[..k]; } else { assert all[..k] == events; }
    }
  }

  lemma LimitedSnoc(cfg: Config, events: seq<Event>, resumed: set<nat>, e: Event)
    requires Limited(cfg, events, resumed)
    requires e.IsGtid() ==> |events| == 2 || |events| in resumed || Offset(events) < cfg.fileSize
    ensures Limited(cfg, events + [e], resumed)
  {
    hide Offset;
    var all, n := events + [e], |events|;
    forall k | 0 <= k < |all| && all[k].IsGtid() ensures k == 2 || k in resumed || Offset(all[..k]) < cfg.fileSize {
      if k < n { assert all[..k] == events[..k]; } else { assert all[..k] == events; }
    }
  }

  lemma TerminatedSnoc(events: seq<Event>, resumed: set<nat>, e: Event)
    requires SoFar(events) && Terminated(events, resumed)
    requires PhaseOf(GtidBased, events).Ended? ==> |events| in resumed
    ensures Terminated(events + [e], resumed)
  {
    var all, n := events + [e], |events|;
    if n > 0 { TerminatorEnds(PhaseOf(GtidBased, events[..n - 1]), events[n - 1]); }
    forall k | 0 <= k < |all| - 1 && all[k].IsTerminator() ensures k + 1 in resumed {
      assert all[k] == events[k];
    }
  }

  lemma TerminatorEnds(p: Phase, e: Event)
    requires !NextPhase(GtidBased, p, e).Bad?
    ensures e.IsTerminator() <==> NextPhase(GtidBased, p, e).Ended?
  {
  }

  lemma FilledSnoc(cfg: Config, events: seq<Event>, e: Event)
    requires Filled(cfg, events) && (e.IsTerminator() ==> Offset(events) >= cfg.fileSize)
    ensures Filled(cfg, events + [e])
  {
    hide Offset;
    var all, n := events + [e], |events|;
    forall k | 0 <= k < |all| && all[k].IsTerminator() ensures Offset(all[..k]) >= cfg.fileSize {
      if k < n { assert all[..k] == events[..k]; } else { assert all[..k] == events; }
    }
  }

  lemma PointsOnSnoc(f: SrcFile, e: Event)
    requires PointsOn(f) && (e.IsTerminator() ==> IsRotateFrom(f.name, e))
    ensures PointsOn(SrcFile(f.name, f.events + [e]))
  {
    hide IsRotateFrom;
  }

  // ----- sequence numbers --------------------------------------------------------------

  lemma NumberedPrefix(events: seq<Event>, n: nat)
    requires Numbered(events) && n <= |events|
    ensures Numbered(events[..n])
  {
    forall k | 0 <= k < n && events[..n][k].IsGtid() ensures events[..n][k].seqno == Begun(events[..n][..k]) + 1 {
      assert events[..n][..k] == events[..k];
    }
  }

  /** The sequence number of the transaction in progress is the number of transactions begun. */
  lemma {:induction false} PhaseNumber(events: seq<Event>)
    requires Numbered(events) && !PhaseOf(GtidBased, events).Bad?
    ensures PhaseOf(GtidBased, events).InTxn? ==> PhaseOf(GtidBased, events).seqno == Begun(events) > 0
  {
    if events != [] {
      var n := |events| - 1;
      NumberedPrefix(events, n);
      PhaseNumber(events[..n]);
    }
  }

  /** The storage's last sequence number counts the transactions of the file. */
  lemma {:induction false} LastNumber(events: seq<Event>)
    requires Numbered(events) && SoFar(events)
    ensures SM.LastSeq(Copy(GtidBased, events)) == Begun(events)
  {
    hide NextPhase;
    if events != [] {
      var n := |events| - 1;
      NumberedPrefix(events, n);
      SoFarPrefix(events, n);
      SoFarFacts(events);
      LastNumber(events[..n]);
      assert events[..|events|] == events;
      PhaseNumber(events);
      CopySnoc(GtidBased, events, n);
      SM.LastSeqSnoc(Copy(GtidBased, events[..n]), StoredAs(PhaseOf(GtidBased, events), events[n]));
      LastStep(PhaseOf(GtidBased, events[..n]), events[n]);
    }
  }

  lemma LastStep(p: Phase, e: Event)
    requires !NextPhase(GtidBased, p, e).Bad?
    ensures e.IsGtid() ==> NextPhase(GtidBased, p, e).InTxn?
  {
  }

  // ----- one event more ----------------------------------------------------------------

  lemma ConnMore(log: Log, c: Ctx, f: SrcFile, e: Event)
    requires Conn(log, c, f, |f.events|)
    ensures Conn(log, c, SrcFile(f.name, f.events + [e]), |f.events|)
  {
    assert f.events[..|f.events|] == f.events == (f.events + [e])[..|f.events|];
  }

  /** An event that continues the file is accepted and written behind it. */
  lemma AppendEvent(log: Log, c: Ctx, f: SrcFile, e: Event)
    requires c.mode == GtidBased && Conn(log, c, f, |f.events|) && SoFar(f.events)
    requires !NextPhase(GtidBased, PhaseOf(GtidBased, f.events), e).Bad?
    requires e.size == |e.data| > 0 && e.nextPos == Offset(f.events) + e.size < U32
    ensures ProcessEvent(log, c, e).Ok? && IsWritten(c, e)
    ensures var (log', c') := ProcessEvent(log, c, e).value;
      var f' := SrcFile(f.name, f.events + [e]);
      && c'.mode == GtidBased && SameBefore(log, log') && LastFile(log).evs <= LastFile(log').evs
      && (Conn(log', c', f', |f'.events|) || Closed(log', c', f'))
      && (PhaseOf(GtidBased, f'.events).Ended? ==> Closed(log', c', f'))
      && SoFar(f'.events)
      && PhaseOf(GtidBased, f'.events) == NextPhase(GtidBased, PhaseOf(GtidBased, f.events), e)
  {
    hide NextPhase, PhaseOf, ProcessEvent, SoFar, Conn, Closed;
    var f' := SrcFile(f.name, f.events + [e]);
    var n := |f.events|;
    SoFarSnoc(f.events, e);
    ConnMore(log, c, f, e);
    assert f'.events[..n] == f.events && f'.events[..n + 1] == f'.events;
    StepLocal(log, c, f', n);
    ReadsAsWritten(log, c, f, e);
  }

  /** The reader accepts the event, and not as information only. */
  ghost predicate IsWritten(c: Ctx, e: Event) {
    Process(c, e).Ok? && !Process(c, e).value.1
  }

  lemma ReadsAsWritten(log: Log, c: Ctx, f: SrcFile, e: Event)
    requires c.mode == GtidBased && Conn(log, c, f, |f.events|)
    requires !NextPhase(GtidBased, PhaseOf(GtidBased, f.events), e).Bad?
    requires e.size > 0 && e.nextPos == Offset(f.events) + e.size < U32
    ensures IsWritten(c, e)
  {
    hide Process, NextPhase, PhaseOf, Matches, Offset, Copy;
    assert f.events[..|f.events|] == f.events;
    ReaderFollows(c, PhaseOf(GtidBased, f.events), e, Offset(f.events));
  }

  // ----- the invariant -----------------------------------------------------------------

  /** The name of the file after the given ones. */
  ghost function NameAfter(cfg: Config, before: seq<FileLog>): Option<Name> {
    if before == [] then Some(cfg.first) else Next(before[|before| - 1].name)
  }

  ghost predicate Fits(cfg: Config, before: seq<FileLog>, name: Name, o: Output) {
    name == o.f.name && NameAfter(cfg, before) == Some(name) && Shaped(cfg, before, o)
  }

  /** Every file is complete, well shaped, ends with its ROTATE and is named after its predecessor. */
  ghost predicate FilesMade(cfg: Config, files: seq<FileLog>, outs: seq<Output>)
    decreases |files|
  {
    && |outs| == |files|
    && (files != [] ==>
          var n := |files| - 1;
          && Fits(cfg, files[..n], files[n].name, outs[n])
          && files[n].evs == Copy(GtidBased, outs[n].f.events) && PhaseOf(GtidBased, outs[n].f.events).Ended?
          && FilesMade(cfg, files[..n], outs[..n]))
  }

  ghost predicate Current(cfg: Config, log: Log, outs: seq<Output>) {
    && log.files != [] && |outs| == |log.files|
    && var n := |log.files| - 1;
       FilesMade(cfg, log.files[..n], outs[..n]) && Fits(cfg, log.files[..n], log.files[n].name, outs[n])
  }

  ghost function LastOut(outs: seq<Output>): Output
    requires outs != []
  {
    outs[|outs| - 1]
  }

  /** In a connection, after the first event that is not skipped. */
  ghost predicate Connected(cfg: Config, log: Log, c: Ctx, outs: seq<Output>) {
    && Current(cfg, log, outs) && c.mode == GtidBased
    && Conn(log, c, LastOut(outs).f, |LastOut(outs).f.events|) && |LastOut(outs).f.events| >= 2
    && Running(LastOut(outs))
  }

  /**
   * Transactions may be written: to a new file, behind one another, or behind a terminator where a connection
   * resumed.
   */
  ghost predicate Running(o: Output) {
    var p := PhaseOf(GtidBased, o.f.events);
    p.Idle? || p.InTxn? || (p.Ended? && |o.f.events| in o.resumed)
  }

  ghost predicate Whole(p: Phase) {
    p.AtStart? || p.Ended? || (p.InTxn? && p.seen == p.expected)
  }

  /** Between connections: whole transactions only. */
  ghost predicate Paused(cfg: Config, log: Log, outs: seq<Output>) {
    if log.files == [] then outs == [] && !log.open && log.tail == []
    else
      && Current(cfg, log, outs) && log.tail == []
      && LastFile(log).evs == Copy(GtidBased, LastOut(outs).f.events) && SM.Complete(LastFile(log).evs)
      && Whole(PhaseOf(GtidBased, LastOut(outs).f.events))
  }

  // ----- writing a rewritten event -----------------------------------------------------

  ghost function Left(p: Phase): nat
    requires p.InTxn? ==> p.seen <= p.expected
  {
    if p.InTxn? then p.expected - p.seen else 0
  }

  /** How many bytes of its transaction are still to come after a source event. */
  ghost function LeftAfter(left: nat, e: Event): Option<nat> {
    if e.artificial || e.size == 0 then None
    else if e.code.GtidLog? || e.code.GtidTagged? then
      if left == 0 && e.gtid.Some? && e.size <= e.txLength then Some(e.txLength - e.size) else None
    else if e.code.Other? then
      if e.size <= left then Some(left - e.size) else None
    else None
  }

  /** The rewriter keeps the size of everything but tagged GTID events. */
  ghost predicate BodyOk(e: Event, data: seq<Byte>) {
    data != [] && (!e.code.GtidTagged? ==> |data| == e.size)
  }

  ghost predicate RoomAt(pos: nat, e: Event, data: seq<Byte>) {
    pos + |data| < U32 && (e.IsGtid() && e.size <= e.txLength ==> |data| + (e.txLength - e.size) < U32)
  }

  ghost predicate RoomFor(log: Log, e: Event, data: seq<Byte>) {
    RoomAt(CurrentPosition(log), e, data)
  }

  ghost function Continued(outs: seq<Output>, e: Event): seq<Output>
    requires outs != []
  {
    var n := |outs| - 1;
    outs[..n] + [Output(SrcFile(outs[n].f.name, outs[n].f.events + [e]), outs[n].resumed)]
  }

  lemma ConnPosition(log: Log, c: Ctx, f: SrcFile)
    requires Conn(log, c, f, |f.events|) && SoFar(f.events)
    ensures CurrentPosition(log) == Offset(f.events)
    ensures log.files != [] && c.mode == GtidBased ==>
      SM.LastSeq(LastFile(log).evs + log.tail) == SM.LastSeq(Copy(c.mode, f.events))
  {
    assert f.events[..|f.events|] == f.events;
    SM.BytesConcat(LastFile(log).evs, log.tail);
    SoFarFacts(f.events);
    OffsetOfCopy(c.mode, f.events);
  }

  /** The current file may get a new transaction: it is below the limit, empty, or has just been resumed. */
  ghost predicate MayBegin(cfg: Config, log: Log, outs: seq<Output>)
    requires outs != []
  {
    var o := LastOut(outs);
    |o.f.events| == 2 || |o.f.events| in o.resumed || CurrentPosition(log) < cfg.fileSize
  }

  lemma RelocatedPhase(log: Log, p: Phase, e: Event, data: seq<Byte>)
    requires (p.InTxn? ==> p.seen <= p.expected < U32) && (p.Idle? || p.InTxn? || p.Ended?)
    requires LeftAfter(Left(p), e).Some? && BodyOk(e, data) && RoomFor(log, e, data)
    ensures var q := NextPhase(GtidBased, p, Relocated(log, e, data));
      && q.InTxn? && q.seen <= q.expected && Left(q) == LeftAfter(Left(p), e).value
      && q.gtid == if e.IsGtid() then e.gtid else if p.InTxn? then p.gtid else None
  {
  }

  lemma RelocatedFields(log: Log, e: Event, data: seq<Byte>)
    requires CurrentPosition(log) + |data| < U32
    ensures var e' := Relocated(log, e, data);
      && e'.data == data && e'.size == |data| && e'.nextPos == CurrentPosition(log) + |data|
      && e'.IsGtid() == e.IsGtid() && e'.code == e.code && e'.artificial == e.artificial
      && (e.IsGtid() ==> e'.seqno == LastSequence(log) + 1)
  {
  }

  lemma ShapedSnoc(cfg: Config, before: seq<FileLog>, o: Output, e: Event)
    requires Shaped(cfg, before, o) && SoFar(o.f.events + [e]) && |o.f.events| >= 2
    requires e.IsGtid() ==> e.seqno == Begun(o.f.events) + 1
    requires e.IsGtid() ==> |o.f.events| == 2 || |o.f.events| in o.resumed || Offset(o.f.events) < cfg.fileSize
    requires PhaseOf(GtidBased, o.f.events).Ended? ==> |o.f.events| in o.resumed
    requires e.IsTerminator() ==> IsRotateFrom(o.f.name, e) && Offset(o.f.events) >= cfg.fileSize
    ensures Shaped(cfg, before, Output(SrcFile(o.f.name, o.f.events + [e]), o.resumed))
  {
    hide SoFar, PhaseOf, PointsOn, Filled;
    PointsOnSnoc(o.f, e);
    FilledSnoc(cfg, o.f.events, e);
    NumberedSnoc(o.f.events, e);
    LimitedSnoc(cfg, o.f.events, o.resumed, e);
    TerminatedSnoc(o.f.events, o.resumed, e);
    assert (o.f.events + [e])[1] == o.f.events[1];
  }

  lemma CurrentAfter(cfg: Config, log: Log, log': Log, outs: seq<Output>, e: Event)
    requires Current(cfg, log, outs) && SameBefore(log, log') && LastFile(log').name == LastFile(log).name
    requires Shaped(cfg, log.files[..|log.files| - 1], LastOut(Continued(outs, e)))
    ensures Current(cfg, log', Continued(outs, e))
  {
    hide FilesMade, Shaped;
    var n := |outs| - 1;
    assert Continued(outs, e)[..n] == outs[..n];
  }

  /** A source event that continues its transaction is relocated, accepted and written. */
  lemma WriteRewritten(cfg: Config, log: Log, c: Ctx, outs: seq<Output>, e: Event, data: seq<Byte>)
    requires Connected(cfg, log, c, outs)
    requires LeftAfter(Left(PhaseOf(GtidBased, LastOut(outs).f.events)), e).Some? && BodyOk(e, data)
    requires RoomFor(log, e, data)
    requires e.IsGtid() ==> MayBegin(cfg, log, outs)
    ensures var e' := Relocated(log, e, data);
      && ProcessEvent(log, c, e').Ok? && IsWritten(c, e')
      && var (log', c') := ProcessEvent(log, c, e').value;
         var p := PhaseOf(GtidBased, LastOut(outs).f.events);
         var q := PhaseOf(GtidBased, LastOut(Continued(outs, e')).f.events);
         && Connected(cfg, log', c', Continued(outs, e')) && SameBefore(log, log')
         && LastFile(log).evs <= LastFile(log').evs
         && q.InTxn? && Left(q) == LeftAfter(Left(p), e).value
         && q.gtid == if e.IsGtid() then e.gtid else if p.InTxn? then p.gtid else None
  {
    hide ProcessEvent, Process, NextPhase, PhaseOf, SoFar, FilesMade, Numbered, Limited, Terminated, Prefaced, PointsOn,
      Filled, CurrentPosition, Conn, Closed, Offset, Begun, Copy, SM.LastSeq;
    var o := LastOut(outs);
    var e' := Relocated(log, e, data);
    var p := PhaseOf(GtidBased, o.f.events);
    ConnPosition(log, c, o.f);
    LastNumber(o.f.events);
    RelocatedPhase(log, p, e, data);
    RelocatedFields(log, e, data);
    assert !e'.IsTerminator();
    hide Relocated, LeftAfter, IsWritten;
    AppendEvent(log, c, o.f, e');
    var (log', c') := ProcessEvent(log, c, e').value;
    var f' := SrcFile(o.f.name, o.f.events + [e']);
    NotClosed(log', c', f');
    ConnName(log', c', f', |f'.events|);
    ConnName(log, c, o.f, |o.f.events|);
    ShapedSnoc(cfg, log.files[..|log.files| - 1], o, e');
    CurrentAfter(cfg, log, log', outs, e');
  }

  lemma NotClosed(log: Log, c: Ctx, f: SrcFile)
    requires c.mode == GtidBased
    ensures Closed(log, c, f) ==> PhaseOf(GtidBased, f.events).Ended?
  {
  }

  // ----- the preface of a new file -----------------------------------------------------

  ghost function FdeOf(g: Generated, name: Name): Event {
    Made(FormatDescription, g.fde, MAGIC_OFFSET, name)
  }

  ghost function PglOf(cfg: Config, before: seq<FileLog>, g: Generated, name: Name): Event {
    Made(PreviousGtids, Blob(g.pglTs, cfg.encode(SM.AllGtids(cfg.base, before))), MAGIC_OFFSET + |g.fde.data|, name)
  }

  /** There are bytes to write and room for them. */
  ghost predicate PrefaceFits(cfg: Config, gtids: set<Gtid>, g: Generated) {
    var pgl := cfg.encode(gtids);
    g.fde.data != [] && pgl != [] && MAGIC_OFFSET + |g.fde.data| + |pgl| < U32
  }

  lemma NothingStored(log: Log, c: Ctx, f: SrcFile)
    requires c.mode == GtidBased && Conn(log, c, f, |f.events|) && SM.NoBoundary(Copy(GtidBased, f.events))
    ensures LastFile(log).evs == []
  {
    assert f.events[..|f.events|] == f.events;
    ConcatEnds(LastFile(log).evs, log.tail);
  }

  lemma FirstPhase(e: Event)
    requires e.code.FormatDescription? && !e.artificial && e.bodyOk
    ensures NextPhase(GtidBased, PhaseOf(GtidBased, []), e) == Described
  {
  }

  lemma EmptySoFar()
    ensures SoFar([]) && Offset([]) == MAGIC_OFFSET
  {
  }

  lemma UnfinishedCopy(events: seq<Event>, e: Event)
    requires SM.NoBoundary(Copy(GtidBased, events))
    requires PhaseOf(GtidBased, events + [e]).Described? || PhaseOf(GtidBased, events + [e]).Idle?
    ensures SM.NoBoundary(Copy(GtidBased, events + [e]))
  {
    hide PhaseOf;
    var all := events + [e];
    assert all[..|events|] == events && all[..|all|] == all;
    CopySnoc(GtidBased, all, |events|);
  }

  lemma FilesUnchanged(before: seq<FileLog>, name: Name, log: Log, log': Log)
    requires log.files == before + [SM.FileLog(name, [])] && SameBefore(log, log')
    requires LastFile(log') == SM.FileLog(name, [])
    ensures log'.files == log.files
  {
    var n := |before|;
    assert log.files[..n] == before && log'.files[..n] == before;
    assert log'.files == log'.files[..n] + [log'.files[n]];
  }

  /** FORMAT_DESCRIPTION is written to an empty file. */
  lemma WriteFde(log: Log, c: Ctx, before: seq<FileLog>, name: Name, g: Generated)
    requires c.mode == GtidBased && Conn(log, c, SrcFile(name, []), 0)
    requires log.files == before + [SM.FileLog(name, [])] && g.fde.data != [] && MAGIC_OFFSET + |g.fde.data| < U32
    ensures var fde := FdeOf(g, name);
      && ProcessEvent(log, c, fde).Ok? && IsWritten(c, fde)
      && var (log', c') := ProcessEvent(log, c, fde).value;
         && c'.mode == GtidBased && Conn(log', c', SrcFile(name, [fde]), 1) && log'.files == log.files
         && SoFar([fde]) && PhaseOf(GtidBased, [fde]).Described? && SM.NoBoundary(Copy(GtidBased, [fde]))
         && Offset([fde]) == MAGIC_OFFSET + |g.fde.data|
  {
    hide ProcessEvent, SoFar, PhaseOf, NextPhase, Conn, Closed, Offset, IsWritten;
    var f, fde := SrcFile(name, []), FdeOf(g, name);
    EmptySoFar();
    FirstPhase(fde);
    assert [] + [fde] == [fde];
    AppendEvent(log, c, f, fde);
    SoFarSnoc([], fde);
    var (log', c') := ProcessEvent(log, c, fde).value;
    var f' := SrcFile(name, [fde]);
    NotClosed(log', c', f');
    UnfinishedCopy([], fde);
    NothingStored(log', c', f');
    ConnName(log', c', f', 1);
    FilesUnchanged(before, name, log, log');
  }

  /** PREVIOUS_GTIDS is written behind it. */
  lemma WritePgl(cfg: Config, log: Log, c: Ctx, before: seq<FileLog>, name: Name, g: Generated)
    requires var fde := FdeOf(g, name);
      && c.mode == GtidBased && Conn(log, c, SrcFile(name, [fde]), 1)
      && SoFar([fde]) && PhaseOf(GtidBased, [fde]).Described? && SM.NoBoundary(Copy(GtidBased, [fde]))
      && Offset([fde]) == MAGIC_OFFSET + |g.fde.data|
    requires log.files == before + [SM.FileLog(name, [])] && PrefaceFits(cfg, SM.AllGtids(cfg.base, before), g)
    ensures var fde, pgl := FdeOf(g, name), PglOf(cfg, before, g, name);
      && ProcessEvent(log, c, pgl).Ok? && IsWritten(c, pgl)
      && var (log', c') := ProcessEvent(log, c, pgl).value;
         && c'.mode == GtidBased && Conn(log', c', SrcFile(name, [fde, pgl]), 2) && log'.files == log.files
         && SoFar([fde, pgl]) && PhaseOf(GtidBased, [fde, pgl]).Idle?
  {
    hide ProcessEvent, SoFar, PhaseOf, Conn, Closed, Offset, IsWritten;
    var fde, pgl := FdeOf(g, name), PglOf(cfg, before, g, name);
    var f, f' := SrcFile(name, [fde]), SrcFile(name, [fde, pgl]);
    assert [fde] + [pgl] == [fde, pgl];
    AppendEvent(log, c, f, pgl);
    var (log', c') := ProcessEvent(log, c, pgl).value;
    NotClosed(log', c', f');
    UnfinishedCopy([fde], pgl);
    NothingStored(log', c', f');
    ConnName(log', c', f', 2);
    FilesUnchanged(before, name, log, log');
  }

  lemma PrefacedOutput(cfg: Config, before: seq<FileLog>, g: Generated, name: Name)
    requires SoFar([FdeOf(g, name), PglOf(cfg, before, g, name)])
    ensures Shaped(cfg, before, Output(SrcFile(name, [FdeOf(g, name), PglOf(cfg, before, g, name)]), {}))
  {
    hide SoFar;
  }

  lemma SameGtids(base: set<Gtid>, before: seq<FileLog>, name: Name)
    ensures SM.AllGtids(base, before + [SM.FileLog(name, [])]) == SM.AllGtids(base, before)
  {
    var files := before + [SM.FileLog(name, [])];
    assert files[..|before|] == before;
  }

  // ----- opening files -----------------------------------------------------------------

  lemma {:induction false} NumbersGrow(cfg: Config, files: seq<FileLog>, outs: seq<Output>, i: nat)
    requires FilesMade(cfg, files, outs) && i < |files|
    ensures files[i].name.number <= files[|files| - 1].name.number
    decreases |files|
  {
    hide Shaped;
    var n := |files| - 1;
    if i < n {
      NumbersGrow(cfg, files[..n], outs[..n], i);
    }
  }

  lemma FreshName(cfg: Config, files: seq<FileLog>, outs: seq<Output>, name: Name)
    requires FilesMade(cfg, files, outs) && NameAfter(cfg, files) == Some(name)
    ensures !SM.HasFile(files, name)
  {
    hide FilesMade;
    forall i | 0 <= i < |files| ensures files[i].name != name {
      NumbersGrow(cfg, files, outs, i);
    }
  }

  /** The two generated events make the file current. */
  lemma PrefaceWritten(cfg: Config, log: Log, c: Ctx, before: seq<FileLog>, outs: seq<Output>, name: Name, g: Generated)
    requires c.mode == GtidBased && Conn(log, c, SrcFile(name, []), 0) && log.files == before + [SM.FileLog(name, [])]
    requires FilesMade(cfg, before, outs) && NameAfter(cfg, before) == Some(name)
    requires PrefaceFits(cfg, SM.AllGtids(cfg.base, before), g)
    ensures var fde, pgl := FdeOf(g, name), PglOf(cfg, before, g, name);
      && ProcessEvent(log, c, fde).Ok?
      && var (log1, c1) := ProcessEvent(log, c, fde).value;
         && log1.files == log.files && SM.AllGtids(cfg.base, log1.files) == SM.AllGtids(cfg.base, before)
         && ProcessEvent(log1, c1, pgl).Ok?
         && var (log2, c2) := ProcessEvent(log1, c1, pgl).value;
            && log2.files == log.files
            && Connected(cfg, log2, c2, outs + [Output(SrcFile(name, [fde, pgl]), {})])
            && PhaseOf(GtidBased, [fde, pgl]).Idle?
  {
    hide ProcessEvent, SoFar, PhaseOf, Conn, FilesMade, Shaped, Offset;
    var fde, pgl := FdeOf(g, name), PglOf(cfg, before, g, name);
    WriteFde(log, c, before, name, g);
    var (log1, c1) := ProcessEvent(log, c, fde).value;
    SameGtids(cfg.base, before, name);
    WritePgl(cfg, log1, c1, before, name, g);
    PrefacedOutput(cfg, before, g, name);
    var (log2, c2) := ProcessEvent(log1, c1, pgl).value;
    var outs' := outs + [Output(SrcFile(name, [fde, pgl]), {})];
    MadeLength(cfg, before, outs);
    assert log2.files[..|before|] == before && outs'[..|before|] == outs;
  }

  lemma MadeLength(cfg: Config, files: seq<FileLog>, outs: seq<Output>)
    requires FilesMade(cfg, files, outs)
    ensures |outs| == |files|
  {
  }

  /** A file that does not exist yet is created, prefaced and current. */
  lemma PrefaceNew(cfg: Config, log: Log, c: Ctx, outs: seq<Output>, name: Name, g: Generated)
    requires c.mode == GtidBased && CanEnter(c) && c.name != Some(name) && (log.open || log.tail == [])
    requires FilesMade(cfg, log.files, outs) && NameAfter(cfg, log.files) == Some(name)
    requires PrefaceFits(cfg, SM.AllGtids(cfg.base, log.files), g)
    ensures var r := Preface(cfg, log, c, name, g);
      var o := Output(SrcFile(name, [FdeOf(g, name), PglOf(cfg, log.files, g, name)]), {});
      && r.Ok? && PrefaceKeeps(cfg, log, c, name, g, log.files + [SM.FileLog(name, [])])
      && Connected(cfg, r.value.0, r.value.1, outs + [o]) && PhaseOf(GtidBased, o.f.events).Idle?
  {
    hide ProcessEvent, FilesMade, Connected, PrefaceFits, CanEnter, PhaseOf;
    FreshName(cfg, log.files, outs, name);
    EnterNew(log, c, name);
    var (log1, c1) := ProcessEvent(log, c, ArtificialRotate(name, MAGIC_OFFSET)).value;
    EnterConnects(log1, c, SrcFile(name, []));
    PrefaceWritten(cfg, log1, c1, log.files, outs, name, g);
  }

  lemma AtBoundaryPhase(log: Log, c: Ctx, f: SrcFile)
    requires c.mode == GtidBased && Conn(log, c, f, |f.events|) && c.AtBoundary()
    requires var p := PhaseOf(GtidBased, f.events); p.Idle? || p.InTxn? || p.Ended?
    ensures var p := PhaseOf(GtidBased, f.events); p.InTxn? && p.seen == p.expected
  {
    assert f.events[..|f.events|] == f.events;
  }

  ghost predicate RotateFitsAt(pos: nat, g: Generated) {
    g.rotate.data != [] && pos + |g.rotate.data| < U32
  }

  ghost predicate RotateFits(log: Log, g: Generated) {
    RotateFitsAt(CurrentPosition(log), g)
  }

  /** At a transaction boundary the current file gets its ROTATE and is finished. */
  lemma FinishFile(cfg: Config, log: Log, c: Ctx, outs: seq<Output>, name: Name, g: Generated)
    requires Connected(cfg, log, c, outs) && NeedsFile(cfg, log, c) && RotateFits(log, g)
    requires !c.IsFresh() && FileToUse(cfg, log, c) == Some(name)
    ensures var e := Made(Rotate, g.rotate, CurrentPosition(log), name);
      && ProcessEvent(log, c, e).Ok? && IsWritten(c, e)
      && var (log', c') := ProcessEvent(log, c, e).value;
         && FilesMade(cfg, log'.files, Continued(outs, e)) && SameBefore(log, log')
         && LastFile(log').evs == LastFile(log).evs + [StoredAs(Ended, e)]
         && !log'.open && log'.tail == [] && LastFile(log').name == LastFile(log).name
         && c'.mode == GtidBased && CanEnter(c') && c'.name == Some(LastFile(log).name)
  {
    hide ProcessEvent, SoFar, Numbered, Limited, Terminated, Prefaced, PointsOn, Filled, CurrentPosition, Offset, Copy,
      PhaseOf, Conn, Closed, IsWritten;
    var n := |outs| - 1;
    var o := outs[n];
    var e := Made(Rotate, g.rotate, CurrentPosition(log), name);
    AtBoundaryPhase(log, c, o.f);
    ConnPosition(log, c, o.f);
    AppendEvent(log, c, o.f, e);
    var (log', c') := ProcessEvent(log, c, e).value;
    var f' := SrcFile(o.f.name, o.f.events + [e]);
    ClosedFacts(log', c', f');
    ConnName(log, c, o.f, |o.f.events|);
    ShapedSnoc(cfg, log.files[..n], o, e);
    assert Continued(outs, e)[..n] == outs[..n];
    WholeInFile(log, c, o.f);
    assert f'.events[..|o.f.events|] == o.f.events && f'.events[..|f'.events|] == f'.events;
    CopySnoc(GtidBased, f'.events, |o.f.events|);
  }

  lemma ClosedFacts(log: Log, c: Ctx, f: SrcFile)
    requires c.mode == GtidBased && Closed(log, c, f)
    ensures !log.open && log.tail == [] && log.files != [] && LastFile(log).name == f.name
    ensures LastFile(log).evs == Copy(GtidBased, f.events) && CanEnter(c) && c.name == Some(f.name)
  {
  }

  lemma WholeInFile(log: Log, c: Ctx, f: SrcFile)
    requires c.mode == GtidBased && Conn(log, c, f, |f.events|)
    requires var p := PhaseOf(GtidBased, f.events); p.InTxn? && p.seen == p.expected
    ensures log.tail == [] && LastFile(log).evs == Copy(GtidBased, f.events)
  {
    var n := |f.events|;
    assert f.events[..n] == f.events;
    CopySnoc(GtidBased, f.events, n - 1);
    ConcatEnds(LastFile(log).evs, log.tail);
    assert log.tail == [] ==> LastFile(log).evs + log.tail == LastFile(log).evs;
  }

  // ----- resuming ----------------------------------------------------------------------

  lemma ReadsPreface(name: Name, pos: nat, fde: Event, pgl: Event)
    requires pos > MAGIC_OFFSET && fde.code.FormatDescription? && fde.bodyOk && !fde.artificial
    requires pgl.code.PreviousGtids? && !pgl.artificial
    ensures var back := Back(GtidBased, name, pos);
      && Process(back, fde) == Ok((back.(state := Previous), true))
      && Process(back.(state := Previous), pgl) == Ok((back.(state := GtidEvent), true))
  {
  }

  lemma PausedPosition(cfg: Config, log: Log, outs: seq<Output>)
    requires Paused(cfg, log, outs) && log.files != []
    ensures CurrentPosition(log) == Offset(LastOut(outs).f.events) < U32
    ensures LastFile(log).evs == [] <==> LastOut(outs).f.events == []
    ensures LastFile(log).evs != [] ==> CurrentPosition(log) > MAGIC_OFFSET
    ensures LastFile(log).name == LastOut(outs).f.name && |outs| == |log.files|
    ensures SoFar(LastOut(outs).f.events)
  {
    hide FilesMade, Numbered, Limited, Terminated, Prefaced, PointsOn, Filled;
    var f := LastOut(outs).f;
    SoFarFacts(f.events);
    hide SoFar;
    OffsetOfCopy(GtidBased, f.events);
    OffsetGrows(f.events, 0);
    SM.NoBytes();
  }

  lemma ResumedConn(log: Log, f: SrcFile, pos: nat)
    requires log.open && log.files != [] && log.tail == [] && LastFile(log).name == f.name
    requires LastFile(log).evs == Copy(GtidBased, f.events) && SM.Complete(LastFile(log).evs)
    requires pos == Offset(f.events)
    requires var p := PhaseOf(GtidBased, f.events); p.Ended? || (p.InTxn? && p.seen == p.expected)
    ensures Conn(log, Back(GtidBased, f.name, pos).(state := GtidEvent), f, |f.events|)
  {
    assert f.events[..|f.events|] == f.events;
    assert LastFile(log).evs + [] == LastFile(log).evs;
  }

  lemma LimitedMore(cfg: Config, events: seq<Event>, resumed: set<nat>, k: nat)
    requires Limited(cfg, events, resumed)
    ensures Limited(cfg, events, resumed + {k})
  {
  }

  lemma TerminatedMore(events: seq<Event>, resumed: set<nat>, k: nat)
    requires Terminated(events, resumed)
    ensures Terminated(events, resumed + {k})
  {
  }

  ghost function Resumed(outs: seq<Output>): seq<Output>
    requires outs != []
  {
    var n := |outs| - 1;
    outs[..n] + [Output(outs[n].f, outs[n].resumed + {|outs[n].f.events|})]
  }

  lemma CurrentResumed(cfg: Config, log: Log, outs: seq<Output>)
    requires Current(cfg, log, outs)
    ensures Current(cfg, log.(open := true), Resumed(outs))
  {
    hide FilesMade, SoFar, Numbered, Limited, Terminated, Prefaced, PointsOn, Filled;
    var n := |outs| - 1;
    LimitedMore(cfg, outs[n].f.events, outs[n].resumed, |outs[n].f.events|);
    TerminatedMore(outs[n].f.events, outs[n].resumed, |outs[n].f.events|);
    assert Resumed(outs)[..n] == outs[..n];
  }

  /** A file with transactions is continued; the generated preface is not written again. */
  lemma PrefaceSkipped(cfg: Config, log: Log, outs: seq<Output>, g: Generated)
    requires Paused(cfg, log, outs) && log.files != [] && LastFile(log).evs != []
    ensures var r := Preface(cfg, log, FreshContext(log, GtidBased), LastFile(log).name, g);
      && r.Ok? && r.value.0 == log.(open := true)
      && PrefaceKeeps(cfg, log, FreshContext(log, GtidBased), LastFile(log).name, g, log.files)
      && Connected(cfg, r.value.0, r.value.1, Resumed(outs)) && MayBegin(cfg, r.value.0, Resumed(outs))
  {
    hide ProcessEvent, Process, FilesMade, Shaped, PhaseOf, Conn, CurrentPosition, Offset, Copy, FreshContext, Current;
    PausedPosition(cfg, log, outs);
    var f, pos, name, open := LastOut(outs).f, CurrentPosition(log), LastFile(log).name, log.(open := true);
    var back := Back(GtidBased, name, pos);
    ReturnToLast(log, GtidBased);
    var fde := Made(FormatDescription, g.fde, MAGIC_OFFSET, name);
    var pgl := PglOf(cfg, log.files, g, name);
    ReadsPreface(name, pos, fde, pgl);
    InfoOnly(open, back, fde);
    InfoOnly(open, back.(state := Previous), pgl);
    StartedPhase(f.events);
    ResumedConn(open, f, pos);
    CurrentResumed(cfg, log, outs);
    LongEnough(f.events);
  }

  lemma StartedPhase(events: seq<Event>)
    requires events != [] && SoFar(events) && Whole(PhaseOf(GtidBased, events))
    ensures var p := PhaseOf(GtidBased, events); p.Ended? || (p.InTxn? && p.seen == p.expected)
  {
    hide NextPhase;
    assert events[..|events|] == events;
    CopySnoc(GtidBased, events, |events| - 1);
    NeverBack(PhaseOf(GtidBased, events[..|events| - 1]), events[|events| - 1]);
  }

  lemma NeverBack(p: Phase, e: Event)
    ensures !NextPhase(GtidBased, p, e).AtStart?
  {
  }

  lemma LongEnough(events: seq<Event>)
    requires events != [] && SoFar(events) && (PhaseOf(GtidBased, events).InTxn? || PhaseOf(GtidBased, events).Ended?)
    ensures |events| >= 2
  {
    hide NextPhase;
    if |events| == 1 {
      assert events[..0] == [] && events[..1] == events;
      CopySnoc(GtidBased, events, 0);
      NotAtOnce(events[0]);
    }
  }

  lemma NotAtOnce(e: Event)
    ensures !NextPhase(GtidBased, AtStart, e).InTxn? && !NextPhase(GtidBased, AtStart, e).Ended?
  {
  }

  // ----- transactions in order ---------------------------------------------------------

  /** The GTIDs of the transactions that end among these events, in order. */
  ghost function Ids(evs: seq<Ev>): seq<Gtid> {
    if evs == [] then []
    else
      var n := |evs| - 1;
      Ids(evs[..n]) + if evs[n].boundary && evs[n].gtid.Some? then [evs[n].gtid.value] else []
  }

  ghost function Order(files: seq<FileLog>): seq<Gtid> {
    if files == [] then [] else Order(files[..|files| - 1]) + Ids(files[|files| - 1].evs)
  }

  lemma {:induction false} IdsConcat(a: seq<Ev>, b: seq<Ev>)
    ensures Ids(a + b) == Ids(a) + Ids(b)
    decreases |b|
  {
    if b == [] {
      assert a + b == a;
    } else {
      var n := |b| - 1;
      IdsConcat(a, b[..n]);
      var c := a + b;
      assert c[..|c| - 1] == a + b[..n] && c[|c| - 1] == b[n];
    }
  }

  lemma OrderSnoc(files: seq<FileLog>, f: FileLog)
    ensures Order(files + [f]) == Order(files) + Ids(f.evs)
  {
    assert (files + [f])[..|files|] == files;
  }

  lemma OrderOfLast(base: set<Gtid>, log: Log, log': Log, more: seq<Ev>)
    requires log.files != [] && SameBefore(log, log') && LastFile(log').evs == LastFile(log).evs + more
    ensures Order(log'.files) == Order(log.files) + Ids(more)
    ensures SM.AllGtids(base, log'.files) == SM.AllGtids(base, log.files) + SM.Gtids(more)
  {
    IdsConcat(LastFile(log).evs, more);
    SM.GtidsConcat(LastFile(log).evs, more);
  }

  // ----- a new file or the old one again -----------------------------------------------

  ghost predicate ReadyToOpen(cfg: Config, log: Log, c: Ctx, outs: seq<Output>) {
    || (Paused(cfg, log, outs) && c == FreshContext(log, GtidBased))
    || (Connected(cfg, log, c, outs) && NeedsFile(cfg, log, c))
  }

  ghost predicate NewFileFits(cfg: Config, log: Log, c: Ctx, g: Generated) {
    && FileToUse(cfg, log, c).Some?
    && PrefaceFits(cfg, SM.AllGtids(cfg.base, log.files), g)
    && (c.IsFresh() || RotateFits(log, g))
  }

  ghost predicate Opened(cfg: Config, was: Log, r: Result<(Log, Ctx)>, outs: seq<Output>) {
    && r.Ok? && Connected(cfg, r.value.0, r.value.1, outs) && MayBegin(cfg, r.value.0, outs)
    && PhaseOf(GtidBased, LastOut(outs).f.events) != Bad && Left(PhaseOf(GtidBased, LastOut(outs).f.events)) == 0
    && Order(r.value.0.files) == Order(was.files)
    && SM.AllGtids(cfg.base, r.value.0.files) == SM.AllGtids(cfg.base, was.files)
  }

  // ----- where connections resumed -----------------------------------------------------

  /** The marks of file i once a connection has started: its last file may have got one at its end. */
  ghost function MarksOf(start: seq<Output>, i: nat): set<nat> {
    if i >= |start| then {}
    else start[i].resumed + if i == |start| - 1 then {|start[i].f.events|} else {}
  }

  ghost predicate Since(start: seq<Output>, outs: seq<Output>) {
    |start| <= |outs| && forall i :: 0 <= i < |outs| ==> outs[i].resumed <= MarksOf(start, i)
  }

  /** No mark is added. */
  ghost predicate SameMarks(a: seq<Output>, b: seq<Output>) {
    |a| <= |b| && forall i :: 0 <= i < |b| ==> b[i].resumed == if i < |a| then a[i].resumed else {}
  }

  lemma MarksStay(start: seq<Output>, a: seq<Output>, b: seq<Output>)
    requires SameMarks(a, b)
    ensures Since(start, a) ==> Since(start, b)
    ensures SameMarks(start, a) ==> SameMarks(start, b)
  {
  }

  lemma MarksBasics(outs: seq<Output>)
    ensures SameMarks(outs, outs) && Since(outs, outs)
  {
  }

  lemma ContinuedMarks(outs: seq<Output>, e: Event)
    requires outs != []
    ensures SameMarks(outs, Continued(outs, e))
  {
  }

  lemma ReplacedMarks(outs: seq<Output>, o: Output)
    requires outs != [] && o.resumed == {}
    ensures Since(outs, outs[..|outs| - 1] + [o])
  {
  }

  lemma ResumedMarks(outs: seq<Output>)
    requires outs != []
    ensures Since(outs, Resumed(outs))
  {
  }

  lemma AgainEvents(cfg: Config, log: Log, outs: seq<Output>, g: Generated)
    requires outs != [] && LastOut(outs).f.events != []
    ensures Events(Resumed(outs)) == FileEvents(cfg, log, FreshContext(log, GtidBased), outs, g, Storing)
  {
  }

  /** What a step within a connection does to the marks. */
  ghost predicate MarksAfter(c: Ctx, outs: seq<Output>, outs': seq<Output>) {
    if c.IsFresh() then Since(outs, outs') else SameMarks(outs, outs')
  }

  /** The last file is new: it has its preface and nothing else. */
  ghost predicate NewlyOpened(cfg: Config, was: Log, g: Generated, outs: seq<Output>) {
    outs != [] && var f := LastOut(outs).f; f.events == [FdeOf(g, f.name), PglOf(cfg, was.files, g, f.name)]
  }

  lemma OpenFirst(cfg: Config, log: Log, g: Generated) returns (outs': seq<Output>)
    requires log.files == [] && !log.open && log.tail == [] && PrefaceFits(cfg, SM.AllGtids(cfg.base, []), g)
    ensures Opened(cfg, log, NewFile(cfg, log, FreshContext(log, GtidBased), g), outs') && Since([], outs')
    ensures NewlyOpened(cfg, log, g, outs')
    ensures Events(outs') == FileEvents(cfg, log, FreshContext(log, GtidBased), [], g, Storing)
    ensures PrefaceKeeps(cfg, log, FreshContext(log, GtidBased), cfg.first, g, log.files + [SM.FileLog(cfg.first, [])])
  {
    hide Connected, PhaseOf, PrefaceFits, ProcessEvent;
    var c := FreshContext(log, GtidBased);
    PrefaceNew(cfg, log, c, [], cfg.first, g);
    outs' := [] + [Output(SrcFile(cfg.first, [FdeOf(g, cfg.first), PglOf(cfg, log.files, g, cfg.first)]), {})];
    OrderSnoc(log.files, SM.FileLog(cfg.first, []));
    SameGtids(cfg.base, log.files, cfg.first);
  }

  lemma OpenEmpty(cfg: Config, log: Log, outs: seq<Output>, g: Generated) returns (outs': seq<Output>)
    requires Paused(cfg, log, outs) && log.files != [] && LastFile(log).evs == []
    requires PrefaceFits(cfg, SM.AllGtids(cfg.base, log.files), g)
    ensures Opened(cfg, log, NewFile(cfg, log, FreshContext(log, GtidBased), g), outs') && Since(outs, outs')
    ensures NewlyOpened(cfg, log, g, outs')
    ensures Events(outs') == FileEvents(cfg, log, FreshContext(log, GtidBased), outs, g, Storing)
    ensures PrefaceKeeps(cfg, log, FreshContext(log, GtidBased), LastFile(log).name, g, log.files)
  {
    hide ProcessEvent, Connected, PhaseOf, PrefaceFits, FilesMade, Shaped, Conn, Since, SM.AllGtids;
    var c := FreshContext(log, GtidBased);
    var n := |log.files| - 1;
    var before, name := log.files[..n], LastFile(log).name;
    PausedPosition(cfg, log, outs);
    ReturnToLast(log, GtidBased);
    EmptyAtMagic(log);
    var open := log.(open := true);
    var back := Back(GtidBased, name, MAGIC_OFFSET);
    assert back == Entered(back.(cycle := 0), name);
    EnterConnects(open, back.(cycle := 0), SrcFile(name, []));
    assert log.files == before + [SM.FileLog(name, [])];
    SameGtids(cfg.base, before, name);
    PrefaceWritten(cfg, open, back, before, outs[..n], name, g);
    outs' := outs[..n] + [Output(SrcFile(name, [FdeOf(g, name), PglOf(cfg, before, g, name)]), {})];
    ReplacedMarks(outs, outs'[n]);
  }

  lemma OpenAgain(cfg: Config, log: Log, outs: seq<Output>, g: Generated)
    requires Paused(cfg, log, outs) && log.files != [] && LastFile(log).evs != []
    ensures outs != [] && Opened(cfg, log, NewFile(cfg, log, FreshContext(log, GtidBased), g), Resumed(outs))
    ensures Since(outs, Resumed(outs))
    ensures Events(Resumed(outs)) == FileEvents(cfg, log, FreshContext(log, GtidBased), outs, g, Storing)
    ensures PrefaceKeeps(cfg, log, FreshContext(log, GtidBased), LastFile(log).name, g, log.files)
  {
    hide PrefaceKeeps, Preface, Connected, PhaseOf, FilesMade, Shaped;
    PausedPosition(cfg, log, outs);
    PrefaceSkipped(cfg, log, outs, g);
    StartedPhase(LastOut(outs).f.events);
    SameOrder(cfg.base, log);
    ResumedMarks(outs);
    AgainEvents(cfg, log, outs, g);
    hide Since, Resumed, FileEvents;
  }

  lemma SameOrder(base: set<Gtid>, log: Log)
    ensures Order(log.(open := true).files) == Order(log.files)
    ensures SM.AllGtids(base, log.(open := true).files) == SM.AllGtids(base, log.files)
  {
  }

  lemma OpenNext(cfg: Config, log: Log, c: Ctx, outs: seq<Output>, g: Generated) returns (outs': seq<Output>)
    requires Connected(cfg, log, c, outs) && NeedsFile(cfg, log, c) && !c.IsFresh() && NewFileFits(cfg, log, c, g)
    ensures Opened(cfg, log, NewFile(cfg, log, c, g), outs') && SameMarks(outs, outs')
    ensures NewlyOpened(cfg, log, g, outs') && Events(outs') == FileEvents(cfg, log, c, outs, g, Storing)
  {
    hide PrefaceKeeps, IsWritten, ProcessEvent, PhaseOf, PrefaceFits, FilesMade, Shaped, Conn, Preface, RotateFits,
      CanEnter;
    var name := FileToUse(cfg, log, c).value;
    var rotate := Made(Rotate, g.rotate, CurrentPosition(log), name);
    FinishFile(cfg, log, c, outs, name, g);
    var (log1, c1) := ProcessEvent(log, c, rotate).value;
    var outs1 := Continued(outs, rotate);
    OrderOfLast(cfg.base, log, log1, [StoredAs(Ended, rotate)]);
    SM.GtidsOne(StoredAs(Ended, rotate));
    assert Ids([StoredAs(Ended, rotate)]) == [];
    assert SM.AllGtids(cfg.base, log1.files) == SM.AllGtids(cfg.base, log.files);
    PrefaceNew(cfg, log1, c1, outs1, name, g);
    outs' := outs1 + [Output(SrcFile(name, [FdeOf(g, name), PglOf(cfg, log1.files, g, name)]), {})];
    KeptFiles(cfg, log1, c1, name, g, log1.files + [SM.FileLog(name, [])]);
    OrderSnoc(log1.files, SM.FileLog(name, []));
    SameGtids(cfg.base, log1.files, name);
  }

  lemma KeptFiles(cfg: Config, log: Log, c: Ctx, name: Name, g: Generated, files: seq<FileLog>)
    requires PrefaceKeeps(cfg, log, c, name, g, files)
    ensures Preface(cfg, log, c, name, g).value.0.files == files
  {
  }

  lemma NewFileOpens(cfg: Config, log: Log, c: Ctx, outs: seq<Output>, g: Generated) returns (outs': seq<Output>)
    requires ReadyToOpen(cfg, log, c, outs) && NewFileFits(cfg, log, c, g)
    ensures Opened(cfg, log, NewFile(cfg, log, c, g), outs') && MarksAfter(c, outs, outs')
    ensures Events(outs') == FileEvents(cfg, log, c, outs, g, Storing)
  {
    hide FileEvents, Opened, NewFile, PrefaceFits, Current, RotateFits, Whole, PrefaceKeeps, Since, SameMarks;
    if Connected(cfg, log, c, outs) {
      NotFresh(cfg, log, c, outs);
      outs' := OpenNext(cfg, log, c, outs, g);
    } else if log.files == [] {
      outs' := OpenFirst(cfg, log, g);
    } else if LastFile(log).evs == [] {
      outs' := OpenEmpty(cfg, log, outs, g);
    } else {
      OpenAgain(cfg, log, outs, g);
      outs' := Resumed(outs);
    }
  }

  // ----- one source event --------------------------------------------------------------

  /** Before a source event: not yet connected, or connected with so much of transaction id still to come. */
  ghost predicate Going(cfg: Config, log: Log, c: Ctx, outs: seq<Output>, left: nat, id: Option<Gtid>) {
    || (Paused(cfg, log, outs) && c == FreshContext(log, GtidBased) && left == 0)
    || (&& Connected(cfg, log, c, outs) && c.state.AnyOther?
        && var p := PhaseOf(GtidBased, LastOut(outs).f.events);
           p.InTxn? && left == Left(p) && (left > 0 ==> p.gtid == id))
  }

  ghost function IdAfter(id: Option<Gtid>, e: Event): Option<Gtid> {
    if e.IsGtid() then e.gtid else id
  }

  /** Everything that is generated or rewritten has bytes, and positions stay below 2^32. */
  ghost predicate AllFits(cfg: Config, log: Log, c: Ctx, e: Event, g: Generated) {
    && g.body.Some? && BodyOk(e, g.body.value)
    && (NeedsFile(cfg, log, c) ==> NewFileFits(cfg, log, c, g))
    && var r := if NeedsFile(cfg, log, c) then NewFile(cfg, log, c, g) else Ok((log, c));
       r.Ok? ==> RoomFor(r.value.0, e, g.body.value)
  }

  lemma EvsAfter(a: seq<Ev>, t: seq<Ev>, ev: Ev, a': seq<Ev>, t': seq<Ev>)
    requires a + t + [ev] == a' + t' && a <= a' && SM.Complete(a')
    requires SM.NoBoundary(t) && SM.NoBoundary(t')
    ensures a' == if ev.boundary then a + t + [ev] else a
  {
    ConcatEnds(a + t, [ev]);
    ConcatEnds(a', t');
    assert a' == (a' + t')[..|a'|] == (a + t + [ev])[..|a'|];
    if ev.boundary {
      assert t' == [];
    } else {
      assert a' == a + (t + [ev])[..|a'| - |a|];
    }
  }

  lemma {:induction false} NoIds(evs: seq<Ev>)
    requires SM.NoBoundary(evs)
    ensures Ids(evs) == []
  {
    if evs != [] { NoIds(evs[..|evs| - 1]); }
  }

  lemma ReadState(c: Ctx, e: Event)
    requires Process(c, e).Ok? && (e.IsGtid() || e.code.Other?)
    ensures Process(c, e).value.0.state.AnyOther?
  {
  }

  lemma WrittenState(log: Log, c: Ctx, e: Event)
    requires ProcessEvent(log, c, e).Ok? && (e.IsGtid() || e.code.Other?)
    ensures ProcessEvent(log, c, e).value.1.state.AnyOther?
  {
    hide Process;
    ReadState(c, e);
  }

  /** The last file grows by the tail and the event, or not at all. */
  lemma OrderGrows(log: Log, log': Log, ev: Ev)
    requires log.files != [] && SameBefore(log, log') && LastFile(log).evs <= LastFile(log').evs
    requires SM.Complete(LastFile(log').evs)
    requires LastFile(log).evs + log.tail + [ev] == LastFile(log').evs + log'.tail
    requires SM.NoBoundary(log.tail) && SM.NoBoundary(log'.tail)
    ensures Order(log'.files) == Order(log.files) + if ev.boundary && ev.gtid.Some? then [ev.gtid.value] else []
  {
    hide Order, Ids;
    var a, t := LastFile(log).evs, log.tail;
    EvsAfter(a, t, ev, LastFile(log').evs, log'.tail);
    if ev.boundary {
      OrderOfLast({}, log, log', t + [ev]);
      IdsConcat(t, [ev]);
      NoIds(t);
      OneId(ev);
    } else {
      OrderOfLast({}, log, log', []);
      NoIds([]);
    }
  }

  lemma OneId(ev: Ev)
    ensures Ids([ev]) == if ev.boundary && ev.gtid.Some? then [ev.gtid.value] else []
  {
    assert [ev][..0] == [];
    assert Ids([ev][..0]) == [];
  }

  /** The transaction order grows exactly when the written event completes a transaction. */
  lemma OrderAfterWrite(log: Log, c: Ctx, f: SrcFile, log': Log, c': Ctx, e: Event)
    requires c.mode == c'.mode == GtidBased && Conn(log, c, f, |f.events|)
    requires Conn(log', c', SrcFile(f.name, f.events + [e]), |f.events| + 1)
    requires SameBefore(log, log') && LastFile(log).evs <= LastFile(log').evs
    ensures var p := PhaseOf(GtidBased, f.events + [e]);
      p.InTxn? && p.seen <= p.expected && p.gtid.Some? ==>
        Order(log'.files) == Order(log.files) + if Left(p) == 0 then [p.gtid.value] else []
  {
    hide PhaseOf, Order, Copy, Offset;
    var all, n := f.events + [e], |f.events|;
    assert f.events[..n] == f.events && all[..n] == f.events && all[..n + 1] == all;
    CopySnoc(GtidBased, all, n);
    OrderGrows(log, log', StoredAs(PhaseOf(GtidBased, all), e));
  }

  /** One event of the current transaction, or the first of a new one. */
  lemma StoreOne(cfg: Config, log: Log, c: Ctx, outs: seq<Output>, e: Event, data: seq<Byte>, left: nat,
                 id: Option<Gtid>)
    requires Connected(cfg, log, c, outs) && BodyOk(e, data) && RoomFor(log, e, data)
    requires var p := PhaseOf(GtidBased, LastOut(outs).f.events);
      left == Left(p) && LeftAfter(left, e).Some? && (left > 0 ==> p.InTxn? && p.gtid == id)
    requires e.IsGtid() ==> MayBegin(cfg, log, outs)
    requires left > 0 ==> id.Some?
    ensures var e' := Relocated(log, e, data);
      && ProcessEvent(log, c, e').Ok? && IsWritten(c, e') && IdAfter(id, e).Some?
      && var (log', c') := ProcessEvent(log, c, e').value;
         && Connected(cfg, log', c', Continued(outs, e'))
         && Going(cfg, log', c', Continued(outs, e'), LeftAfter(left, e).value, IdAfter(id, e))
         && Order(log'.files) == Order(log.files) + if LeftAfter(left, e).value == 0 then [IdAfter(id, e).value] else []
  {
    hide ProcessEvent, Conn, CurrentPosition, FilesMade, Fits, PhaseOf;
    var f := LastOut(outs).f;
    var e' := Relocated(log, e, data);
    WriteRewritten(cfg, log, c, outs, e, data);
    var (log', c') := ProcessEvent(log, c, e').value;
    WrittenState(log, c, e');
    OrderAfterWrite(log, c, f, log', c', e');
  }

  lemma BoundaryIff(log: Log, c: Ctx, f: SrcFile)
    requires c.mode == GtidBased && Conn(log, c, f, |f.events|) && c.state.AnyOther?
    ensures !c.IsFresh()
    ensures var p := PhaseOf(GtidBased, f.events); p.InTxn? ==> (c.AtBoundary() <==> p.seen == p.expected)
  {
    assert f.events[..|f.events|] == f.events;
  }

  lemma GoingBasics(cfg: Config, log: Log, c: Ctx, outs: seq<Output>, left: nat, id: Option<Gtid>)
    requires Going(cfg, log, c, outs, left, id)
    ensures c.IsFresh() ==> Paused(cfg, log, outs) && c == FreshContext(log, GtidBased) && left == 0
    ensures !c.IsFresh() ==>
      && Connected(cfg, log, c, outs) && (c.AtBoundary() <==> left == 0)
      && var p := PhaseOf(GtidBased, LastOut(outs).f.events); p.InTxn? && left == Left(p) && (left > 0 ==> p.gtid == id)
  {
    hide Paused, Conn, PhaseOf, FilesMade, Fits;
    if Connected(cfg, log, c, outs) && c.state.AnyOther? {
      BoundaryIff(log, c, LastOut(outs).f);
    }
  }

  /**
   * One event of a source transaction: accepted, stored behind what is there, in a new file if the
   * current one has reached its size; the transaction order grows when the transaction is complete.
   */
  lemma RewriteStep(cfg: Config, log: Log, c: Ctx, outs: seq<Output>, e: Event, g: Generated, left: nat,
                    id: Option<Gtid>)
    returns (outs': seq<Output>)
    requires Going(cfg, log, c, outs, left, id) && (left > 0 ==> id.Some?)
    requires !IsSkipped(e) && LeftAfter(left, e).Some? && AllFits(cfg, log, c, e, g)
    ensures var r := RewriteEvent(cfg, log, c, e, g);
      && r.Ok? && IdAfter(id, e).Some?
      && Going(cfg, r.value.0, r.value.1, outs', LeftAfter(left, e).value, IdAfter(id, e))
      && Order(r.value.0.files)
         == Order(log.files) + (if LeftAfter(left, e).value == 0 then [IdAfter(id, e).value] else [])
      && !r.value.1.IsFresh()
    ensures MarksAfter(c, outs, outs') && Events(outs') == HandledEvents(cfg, log, c, outs, e, g, Storing)
  {
    hide IsWritten, FileEvents, ProcessEvent, Paused, Connected, NewFile, CurrentPosition, Relocated, NewFileFits,
      RoomFor, BodyOk, PhaseOf, Order, Since, SameMarks;
    GoingBasics(cfg, log, c, outs, left, id);
    var data := g.body.value;
    if NeedsFile(cfg, log, c) {
      var outs1 := NewFileOpens(cfg, log, c, outs, g);
      var (log1, c1) := NewFile(cfg, log, c, g).value;
      ConnectedBasics(cfg, log1, c1, outs1);
      StoreOne(cfg, log1, c1, outs1, e, data, 0, id);
      outs' := Continued(outs1, Relocated(log1, e, data));
      ContinuedMarks(outs1, Relocated(log1, e, data));
      ContinuedEvents(outs1, Relocated(log1, e, data));
      MarksStay(outs, outs1, outs');
    } else {
      ConnectedBasics(cfg, log, c, outs);
      StoreOne(cfg, log, c, outs, e, data, left, id);
      outs' := Continued(outs, Relocated(log, e, data));
      ContinuedMarks(outs, Relocated(log, e, data));
      ContinuedEvents(outs, Relocated(log, e, data));
    }
    var (log', c') := RewriteEvent(cfg, log, c, e, g).value;
    NotFresh(cfg, log', c', outs');
  }

  lemma NotFresh(cfg: Config, log: Log, c: Ctx, outs: seq<Output>)
    requires Connected(cfg, log, c, outs)
    ensures !c.IsFresh()
  {
  }

  lemma ConnectedBasics(cfg: Config, log: Log, c: Ctx, outs: seq<Output>)
    requires Connected(cfg, log, c, outs)
    ensures outs != [] && |outs| == |log.files|
  {
  }

  // ----- the end of a connection -------------------------------------------------------

  lemma ShapedPrefix(cfg: Config, before: seq<FileLog>, o: Output, k: nat)
    requires Shaped(cfg, before, o) && k <= |o.f.events|
    ensures Shaped(cfg, before, Output(SrcFile(o.f.name, o.f.events[..k]), o.resumed))
  {
    hide SoFar, Numbered, Filled;
    SoFarPrefix(o.f.events, k);
    NumberedPrefix(o.f.events, k);
    LimitedPrefix(cfg, o.f.events, o.resumed, k);
    TerminatedPrefix(o.f.events, o.resumed, k);
    FilledPrefix(cfg, o.f.events, k);
    assert forall i :: 0 <= i < k ==> o.f.events[..k][i] == o.f.events[i];
  }

  lemma TerminatedPrefix(events: seq<Event>, resumed: set<nat>, n: nat)
    requires Terminated(events, resumed) && n <= |events|
    ensures Terminated(events[..n], resumed)
  {
    assert forall k :: 0 <= k < n ==> events[..n][k] == events[k];
  }

  lemma LimitedPrefix(cfg: Config, events: seq<Event>, resumed: set<nat>, n: nat)
    requires Limited(cfg, events, resumed) && n <= |events|
    ensures Limited(cfg, events[..n], resumed)
  {
    forall k | 0 <= k < n && events[..n][k].IsGtid()
      ensures k == 2 || k in resumed || Offset(events[..n][..k]) < cfg.fileSize
    {
      assert events[..n][..k] == events[..k];
    }
  }

  lemma FilledPrefix(cfg: Config, events: seq<Event>, n: nat)
    requires Filled(cfg, events) && n <= |events|
    ensures Filled(cfg, events[..n])
  {
    hide Offset;
    forall k | 0 <= k < n && events[..n][k].IsTerminator() ensures Offset(events[..n][..k]) >= cfg.fileSize {
      assert events[..n][..k] == events[..k];
    }
  }

  /** What is stored of a file ends with a transaction or with a terminator. */
  lemma WholeAt(events: seq<Event>, k: nat)
    requires k <= |events| && SM.Complete(Copy(GtidBased, events[..k]))
    ensures Whole(PhaseOf(GtidBased, events[..k]))
  {
    hide NextPhase;
    if k > 0 { CopySnoc(GtidBased, events, k - 1); }
  }

  lemma StoredPart(log: Log, c: Ctx, f: SrcFile)
    requires c.mode == GtidBased && Conn(log, c, f, |f.events|)
    ensures |LastFile(log).evs| <= |f.events| && LastFile(log).evs == Copy(GtidBased, f.events[..|LastFile(log).evs|])
    ensures SM.Complete(LastFile(log).evs) && LastFile(log).name == f.name && log.files != []
  {
    assert f.events[..|f.events|] == f.events;
    CopyPrefix(GtidBased, f.events, |LastFile(log).evs|);
  }

  ghost function AfterTimeout(log: Log): Log {
    SR.LogApply(SR.LogApply(log, SR.Discard), SR.FlushNow)
  }

  lemma PauseConnected(cfg: Config, log: Log, c: Ctx, outs: seq<Output>) returns (outs': seq<Output>)
    requires Connected(cfg, log, c, outs)
    ensures Paused(cfg, AfterTimeout(log), outs') && SameMarks(outs, outs')
    ensures Events(outs') == Kept(Events(outs), log.files)
  {
    hide FilesMade, Shaped, Conn, PhaseOf, SoFar;
    var n := |outs| - 1;
    var o := outs[n];
    StoredPart(log, c, o.f);
    var k := |LastFile(log).evs|;
    outs' := outs[..n] + [Output(SrcFile(o.f.name, o.f.events[..k]), o.resumed)];
    ShapedPrefix(cfg, log.files[..n], o, k);
    ShapedSoFar(cfg, log.files[..n], o);
    WholeAt(o.f.events, k);
    assert outs'[..n] == outs[..n];
    MadeKept(cfg, log.files, outs);
    CutLast(log.files, outs, outs');
  }

  /** The last list is cut to what the last file holds. */
  lemma CutLast(files: seq<FileLog>, outs: seq<Output>, outs': seq<Output>)
    requires files != [] && |outs| == |outs'| == |files| && outs'[..|files| - 1] == outs[..|files| - 1]
    requires forall i :: 0 <= i < |files| - 1 ==> |files[i].evs| == |outs[i].f.events|
    requires var n := |files| - 1;
      |files[n].evs| <= |outs[n].f.events| && outs'[n].f.events == outs[n].f.events[..|files[n].evs|]
    ensures Events(outs') == Kept(Events(outs), files)
  {
    var n := |files| - 1;
    forall i | 0 <= i < |files|
      ensures |files[i].evs| <= |Events(outs)[i]| && Events(outs')[i] == Events(outs)[i][..|files[i].evs|]
    {
      if i < n { assert outs'[i] == outs'[..n][i] == outs[..n][i] == outs[i]; }
    }
    KeptIs(Events(outs), files, Events(outs'));
  }

  lemma {:induction false} MadeLengths(cfg: Config, files: seq<FileLog>, outs: seq<Output>, i: nat)
    requires FilesMade(cfg, files, outs) && i < |files|
    ensures |outs| == |files| && |files[i].evs| == |outs[i].f.events|
    decreases |files|
  {
    hide Fits;
    var n := |files| - 1;
    if i < n { MadeLengths(cfg, files[..n], outs[..n], i); }
  }

  /** All files but the last hold all of their events. */
  lemma MadeKept(cfg: Config, files: seq<FileLog>, outs: seq<Output>)
    requires files != [] && |outs| == |files| && FilesMade(cfg, files[..|files| - 1], outs[..|files| - 1])
    ensures forall i :: 0 <= i < |files| - 1 ==> |files[i].evs| == |outs[i].f.events|
  {
    hide FilesMade;
    var n := |files| - 1;
    forall i | 0 <= i < n ensures |files[i].evs| == |outs[i].f.events| {
      MadeLengths(cfg, files[..n], outs[..n], i);
    }
  }

  /** Between connections the files hold all of their events. */
  lemma PausedKept(cfg: Config, log: Log, outs: seq<Output>)
    requires Paused(cfg, log, outs)
    ensures Events(outs) == Kept(Events(outs), log.files)
  {
    hide FilesMade, Fits, PhaseOf;
    if log.files != [] {
      MadeKept(cfg, log.files, outs);
      CutLast(log.files, outs, outs);
    } else {
      KeptIs(Events(outs), log.files, Events(outs));
    }
  }

  lemma ShapedSoFar(cfg: Config, before: seq<FileLog>, o: Output)
    requires Shaped(cfg, before, o)
    ensures SoFar(o.f.events)
  {
  }

  lemma PausePaused(cfg: Config, log: Log, outs: seq<Output>)
    requires Paused(cfg, log, outs)
    ensures Paused(cfg, AfterTimeout(log), outs)
  {
    hide FilesMade, Fits, PhaseOf;
  }

  /** After a timeout the unfinished transaction is gone and everything else stays. */
  lemma PauseAfter(cfg: Config, log: Log, c: Ctx, outs: seq<Output>, left: nat, id: Option<Gtid>)
    returns (outs': seq<Output>)
    requires Going(cfg, log, c, outs, left, id)
    ensures Paused(cfg, AfterTimeout(log), outs') && AfterTimeout(log).files == log.files && SameMarks(outs, outs')
    ensures Events(outs') == Kept(Events(outs), log.files)
  {
    hide Paused, Connected, PhaseOf;
    GoingBasics(cfg, log, c, outs, left, id);
    outs' := outs;
    if c.IsFresh() {
      PausePaused(cfg, log, outs);
      PausedKept(cfg, log, outs);
      MarksBasics(outs);
    } else {
      outs' := PauseConnected(cfg, log, c, outs);
    }
  }
}
