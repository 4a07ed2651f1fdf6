/**
 * app.cpp: the event loop on top of the reader context and the storage, with the storage seen as
 * the append-only log it refines, and the source server seen as a list of binlog files.
 */
module Streaming {
  import opened Prelude
  import opened BinlogNames
  import opened ReaderContext
  import SM = StorageModel
  import SR = StorageRuns

  type Ev = SM.Ev
  type FileLog = SM.FileLog
  type Log = SR.Log

  // ----- app.cpp -----------------------------------------------------------------------

  ghost function LastFile(log: Log): FileLog
    requires log.files != []
  {
    log.files[|log.files| - 1]
  }

  ghost function CurrentName(log: Log): Option<Name> {
    if log.files == [] then None else Some(LastFile(log).name)
  }

  /** get_current_position: everything written to the last file, complete or not. */
  ghost function CurrentPosition(log: Log): nat {
    if log.files == [] then 0
    else MAGIC_OFFSET + |SM.Bytes(LastFile(log).evs)| + |SM.Bytes(log.tail)|
  }

  /** What process_binlog_event hands to write_event. */
  ghost function Written(e: Event, c: Ctx): Ev {
    SM.Ev(e.data, c.AtBoundary(), c.gtid, e.ts, c.seqno)
  }

  /** What the application asks the storage before it acts. */
  datatype Seen = Seen(open: bool, name: Option<Name>, pos: nat)

  ghost function See(log: Log): Seen {
    Seen(log.open, CurrentName(log), CurrentPosition(log))
  }

  /** The calls process_artificial_rotate_event makes; Err is its position check. */
  ghost function RotateOps(seen: Seen, mode: ReplicationMode, e: Event): Result<seq<SR.Op>> {
    if !seen.open then Ok([SR.Open(e.target)])
    else if seen.name != Some(e.target) then Ok([SR.Close, SR.Open(e.target)])
    else if mode == Position && e.targetPos != seen.pos then Err
    else Ok([])
  }

  /** The calls process_binlog_event makes for one event, given the reader's verdict on it. */
  ghost function OpsFor(seen: Seen, c: Ctx, info: bool, e: Event): (r: Result<seq<SR.Op>>)
    ensures r.Ok? ==> |r.value| <= 3
  {
    var rotate := if e.IsArtificialRotate() then RotateOps(seen, c.mode, e) else Ok([]);
    if rotate.Err? then Err
    else
      Ok(rotate.value
         + (if info then [] else [SR.Write(Written(e, c))])
         + (if e.IsTerminator() then [SR.Close] else []))
  }

  ghost predicate Accepted(log: Log, ops: seq<SR.Op>) {
    forall i :: 0 <= i < |ops| ==> SR.LogAccepts(SR.LogRun(log, ops[..i]), ops[i])
  }

  /** process_binlog_event. */
  ghost function ProcessEvent(log: Log, c: Ctx, e: Event): Result<(Log, Ctx)> {
    var r := Process(c, e);
    if r.Err? then Err
    else
      var ops := OpsFor(See(log), r.value.0, r.value.1, e);
      if ops.Err? || !Accepted(log, ops.value) then Err
      else Ok((SR.LogRun(log, ops.value), r.value.0))
  }

  /** The loop of receive_binlog_events over the events that arrive before the connection ends. */
  ghost function Feed(log: Log, c: Ctx, events: seq<Event>): Result<(Log, Ctx)>
    decreases |events|
  {
    if events == [] then Ok((log, c))
    else
      var r := ProcessEvent(log, c, events[0]);
      if r.Err? then Err else Feed(r.value.0, r.value.1, events[1..])
  }

  ghost function FreshContext(log: Log, mode: ReplicationMode): Ctx {
    Fresh(mode, CurrentName(log), CurrentPosition(log))
  }

  // ----- the source --------------------------------------------------------------------

  /** How far into a binlog file a list of its first events goes. */
  datatype Phase =
    | AtStart | Described | Idle
    | InTxn(gtid: Option<Gtid>, seqno: nat, expected: nat, seen: nat)
    | Ended | Bad

  ghost predicate BetweenTxns(p: Phase) {
    p.Idle? || (p.InTxn? && p.seen == p.expected)
  }

  /** Where a transaction may begin; behind a terminator too, if a connection resumes there. */
  ghost predicate MayStart(p: Phase) {
    BetweenTxns(p) || p.Ended?
  }

  /** The grammar of a binlog file: FDE, PREVIOUS_GTIDS, transactions of declared length, ROTATE or STOP. */
  ghost function NextPhase(mode: ReplicationMode, p: Phase, e: Event): Phase {
    if e.artificial then Bad
    else match e.code
      case FormatDescription => if p.AtStart? && e.bodyOk then Described else Bad
      case PreviousGtids => if p.Described? then Idle else Bad
      case AnonymousGtid =>
        if MayStart(p) && mode == Position && e.gtid.None? && e.size <= e.txLength < U32
        then InTxn(None, e.seqno, e.txLength, e.size) else Bad
      case Rotate => if BetweenTxns(p) && e.targetPos == MAGIC_OFFSET then Ended else Bad
      case Stop => if BetweenTxns(p) then Ended else Bad
      case Other =>
        if p.InTxn? && p.seen + e.size <= p.expected then p.(seen := p.seen + e.size) else Bad
      case _ =>
        if MayStart(p) && e.gtid.Some? && e.size <= e.txLength < U32
        then InTxn(e.gtid, e.seqno, e.txLength, e.size) else Bad
  }

  ghost function PhaseOf(mode: ReplicationMode, events: seq<Event>): (p: Phase)
    ensures p.InTxn? ==> 0 < |events| && p.seen <= p.expected < U32
  {
    if events == [] then AtStart
    else NextPhase(mode, PhaseOf(mode, events[..|events| - 1]), events[|events| - 1])
  }

  /** The offset in the file after the given events. */
  ghost function Offset(events: seq<Event>): nat {
    if events == [] then MAGIC_OFFSET else Offset(events[..|events| - 1]) + events[|events| - 1].size
  }

  ghost function StoredAs(p: Phase, e: Event): Ev {
    SM.Ev(e.data, p.Ended? || (p.InTxn? && p.seen == p.expected),
          if p.InTxn? then p.gtid else None, e.ts, if p.InTxn? then p.seqno else 0)
  }

  /** The events of a file as the storage keeps them. */
  ghost function Copy(mode: ReplicationMode, events: seq<Event>): (c: seq<Ev>)
    ensures |c| == |events|
  {
    if events == [] then []
    else Copy(mode, events[..|events| - 1]) + [StoredAs(PhaseOf(mode, events), events[|events| - 1])]
  }

  datatype SrcFile = SrcFile(name: Name, events: seq<Event>)

  /** A file of the source: well formed, nothing behind its terminator, and no transaction cut short. */
  ghost predicate GoodFile(mode: ReplicationMode, f: SrcFile) {
    && |f.events| >= 2
    && Offset(f.events) < U32
    && (forall k :: 0 <= k < |f.events| ==>
          f.events[k].size == |f.events[k].data| > 0 && f.events[k].nextPos == Offset(f.events[..k + 1]))
    && (forall k :: 0 <= k <= |f.events| ==> !PhaseOf(mode, f.events[..k]).Bad?)
    && (forall k :: 0 <= k < |f.events| ==> !PhaseOf(mode, f.events[..k]).Ended?)
    && MayStart(PhaseOf(mode, f.events))
  }

  ghost predicate GoodSource(mode: ReplicationMode, src: seq<SrcFile>) {
    && (forall i :: 0 <= i < |src| ==> GoodFile(mode, src[i]))
    && (forall i, j :: 0 <= i < j < |src| ==> src[i].name != src[j].name)
  }

  ghost function ArtificialRotate(name: Name, pos: nat): Event {
    Event(Rotate, true, 0, 0, 0, [], name, pos, None, 0, 0, true)
  }

  /** Everything the server sends after it is done with the files before j. */
  ghost function Rest(src: seq<SrcFile>, j: nat): seq<Event>
    requires j <= |src|
    decreases |src| - j
  {
    if j == |src| then []
    else [ArtificialRotate(src[j].name, MAGIC_OFFSET)] + src[j].events + Rest(src, j + 1)
  }

  // ----- lists -------------------------------------------------------------------------

  lemma {:induction false} CopyPrefix(mode: ReplicationMode, events: seq<Event>, k: nat)
    requires k <= |events|
    ensures Copy(mode, events[..k]) == Copy(mode, events)[..k]
  {
    if k == |events| {
      assert events[..k] == events;
    } else {
      var n := |events| - 1;
      CopyPrefix(mode, events[..n], k);
      assert events[..n][..k] == events[..k];
    }
  }

  lemma CopySnoc(mode: ReplicationMode, events: seq<Event>, k: nat)
    requires k < |events|
    ensures Copy(mode, events[..k + 1])
         == Copy(mode, events[..k]) + [StoredAs(PhaseOf(mode, events[..k + 1]), events[k])]
    ensures PhaseOf(mode, events[..k + 1]) == NextPhase(mode, PhaseOf(mode, events[..k]), events[k])
    ensures Offset(events[..k + 1]) == Offset(events[..k]) + events[k].size
  {
    assert events[..k + 1][..k] == events[..k];
  }

  lemma {:induction false} OffsetOfCopy(mode: ReplicationMode, events: seq<Event>)
    requires forall k :: 0 <= k < |events| ==> events[k].size == |events[k].data|
    ensures Offset(events) == MAGIC_OFFSET + |SM.Bytes(Copy(mode, events))|
  {
    if events != [] {
      var n := |events| - 1;
      OffsetOfCopy(mode, events[..n]);
      var c := Copy(mode, events);
      assert c[..|c| - 1] == Copy(mode, events[..n]);
    }
  }

  lemma {:induction false} OffsetGrows(events: seq<Event>, k: nat)
    requires k <= |events| && forall i :: 0 <= i < |events| ==> events[i].size > 0
    ensures Offset(events) >= Offset(events[..k]) + (|events| - k) && Offset(events[..k]) >= MAGIC_OFFSET + k
  {
    if events == [] {
    } else if k == |events| {
      assert events[..k] == events;
      OffsetGrows(events[..k - 1], k - 1);
      assert events[..k - 1][..k - 1] == events[..k - 1];
    } else {
      var n := |events| - 1;
      OffsetGrows(events[..n], k);
      assert events[..n][..k] == events[..k];
    }
  }

  lemma OffsetStrict(events: seq<Event>, a: nat, b: nat)
    requires a < b <= |events| && forall i :: 0 <= i < |events| ==> events[i].size > 0
    ensures Offset(events[..a]) < Offset(events[..b])
  {
    OffsetGrows(events[..b], a);
    assert events[..b][..a] == events[..a];
  }

  lemma ConcatEnds(a: seq<Ev>, b: seq<Ev>)
    ensures b != [] ==> (a + b)[|a + b| - 1] == b[|b| - 1]
    ensures a != [] ==> (a + b)[|a| - 1] == a[|a| - 1]
  {
  }

  lemma {:induction false} FeedConcat(log: Log, c: Ctx, a: seq<Event>, b: seq<Event>)
    ensures Feed(log, c, a + b) ==
      var r := Feed(log, c, a);
      if r.Err? then Err else Feed(r.value.0, r.value.1, b)
    decreases |a|
  {
    hide ProcessEvent;
    if a == [] {
      assert a + b == b;
    } else {
      assert (a + b)[1..] == a[1..] + b;
      var r := ProcessEvent(log, c, a[0]);
      if r.Ok? {
        FeedConcat(r.value.0, r.value.1, a[1..], b);
      }
    }
  }

  // ----- the connected invariant -------------------------------------------------------

  predicate Clean(c: Ctx) {
    c.gtid == None && c.seqno == 0 && c.expected == 0 && c.seen == 0
  }

  /** The reader's state after a file's events up to phase p. */
  ghost predicate Matches(c: Ctx, p: Phase) {
    match p
    case AtStart => c.state.Description? && !c.infoOnlyPreamble && Clean(c)
    case Described => c.state.Previous? && !c.infoOnlyPreamble && Clean(c)
    case Idle => c.state.GtidEvent? && Clean(c)
    case InTxn(g, s, e, n) =>
      || (c.state.AnyOther? && c.gtid == g && c.seqno == s && c.expected == e && c.seen == n)
      || (n == e && c.state.GtidEvent? && Clean(c))
    case Ended => c.state.GtidEvent? && Clean(c)
    case Bad => false
  }

  /** The last file of the log holds the first k events of f, the reader stands behind them. */
  ghost predicate Conn(log: Log, c: Ctx, f: SrcFile, k: nat) {
    && k <= |f.events|
    && log.open && log.files != [] && LastFile(log).name == f.name
    && LastFile(log).evs + log.tail == Copy(c.mode, f.events[..k])
    && SM.Complete(LastFile(log).evs) && SM.NoBoundary(log.tail)
    && c.name == Some(f.name) && c.pos == Offset(f.events[..k]) && c.cycle > 0
    && Matches(c, PhaseOf(c.mode, f.events[..k]))
  }

  /** The terminator of f has been written and its file closed. */
  ghost predicate Closed(log: Log, c: Ctx, f: SrcFile) {
    && !log.open && log.tail == [] && log.files != [] && LastFile(log).name == f.name
    && LastFile(log).evs == Copy(c.mode, f.events) && PhaseOf(c.mode, f.events).Ended?
    && SM.Complete(LastFile(log).evs)
    && c.name == Some(f.name) && c.state.RotateArtificial? && Clean(c) && c.cycle > 0
  }

  /** The files before the last one are the same. */
  ghost predicate SameBefore(a: Log, b: Log) {
    |a.files| == |b.files| && a.files != [] && a.files[..|a.files| - 1] == b.files[..|b.files| - 1]
  }

  // ----- one event of a file -----------------------------------------------------------

  ghost predicate GoodEvent(f: SrcFile, k: nat) {
    && k < |f.events|
    && f.events[k].size > 0
    && Offset(f.events[..k]) + f.events[k].size == Offset(f.events[..k + 1]) == f.events[k].nextPos < U32
  }

  lemma GoodEvents(mode: ReplicationMode, f: SrcFile, k: nat)
    requires GoodFile(mode, f) && k < |f.events|
    ensures GoodEvent(f, k)
    ensures PhaseOf(mode, f.events[..k + 1]) == NextPhase(mode, PhaseOf(mode, f.events[..k]), f.events[k])
    ensures !PhaseOf(mode, f.events[..k + 1]).Bad? && !PhaseOf(mode, f.events[..k]).Bad?
  {
    CopySnoc(mode, f.events, k);
    OffsetGrows(f.events, k + 1);
  }

  /** The reader is in step with the grammar after an event. */
  ghost predicate InStep(c: Ctx, p: Phase, e: Event) {
    && Process(c, e).Ok? && !Process(c, e).value.1
    && var (c', q) := (Process(c, e).value.0, NextPhase(c.mode, p, e));
       && c'.mode == c.mode && c'.name == c.name && c'.cycle == c.cycle
       && Written(e, c') == StoredAs(q, e)
       && (q.Ended? <==> e.IsTerminator())
       && (!q.Ended? ==> Matches(c', q) && c'.pos == e.nextPos)
       && (q.Ended? ==> c'.state.RotateArtificial? && Clean(c'))
  }

  ghost predicate CanRead(c: Ctx, p: Phase, e: Event, at: nat) {
    && Matches(c, p) && c.pos == at && !NextPhase(c.mode, p, e).Bad?
    && (p.InTxn? ==> p.seen <= p.expected < U32)
    && e.size > 0 && at + e.size == e.nextPos < U32
  }

  lemma ReaderFollowsGtid(c: Ctx, p: Phase, e: Event, at: nat)
    requires CanRead(c, p, e, at) && e.IsGtid()
    ensures InStep(c, p, e)
  {
    assert (at + e.size) % U32 == e.nextPos;
    assert e.size % U32 == e.size;
  }

  lemma ReaderFollowsInside(c: Ctx, p: Phase, e: Event, at: nat)
    requires CanRead(c, p, e, at) && e.code.Other?
    ensures InStep(c, p, e)
  {
    assert (at + e.size) % U32 == e.nextPos;
    assert c.state.AnyOther?;
    assert (c.seen + e.size) % U32 == c.seen + e.size;
  }

  lemma ReaderFollowsRest(c: Ctx, p: Phase, e: Event, at: nat)
    requires CanRead(c, p, e, at) && !e.IsGtid() && !e.code.Other?
    ensures InStep(c, p, e)
  {
    assert (at + e.size) % U32 == e.nextPos;
  }

  /** The reader accepts the next event of a well-formed file and stays in step with the grammar. */
  lemma ReaderFollows(c: Ctx, p: Phase, e: Event, at: nat)
    requires CanRead(c, p, e, at)
    ensures InStep(c, p, e)
  {
    hide CanRead, InStep;
    if e.IsGtid() {
      ReaderFollowsGtid(c, p, e, at);
    } else if e.code.Other? {
      ReaderFollowsInside(c, p, e, at);
    } else {
      ReaderFollowsRest(c, p, e, at);
    }
  }

  // ----- the calls an event causes -----------------------------------------------------

  lemma OneCall(log: Log, op: SR.Op)
    requires SR.LogAccepts(log, op)
    ensures Accepted(log, [op]) && SR.LogRun(log, [op]) == SR.LogApply(log, op)
  {
    assert [op][..0] == [];
    assert SR.LogRun(log, []) == log;
  }

  lemma TwoCalls(log: Log, a: SR.Op, b: SR.Op)
    requires SR.LogAccepts(log, a) && SR.LogAccepts(SR.LogApply(log, a), b)
    ensures Accepted(log, [a, b]) && SR.LogRun(log, [a, b]) == SR.LogApply(SR.LogApply(log, a), b)
  {
    OneCall(log, a);
    assert [a, b][..1] == [a];
    assert [a, b][..0] == [];
    assert SR.LogRun(log, []) == log;
  }

  /** A plain event is written; a terminator is written and its file closed. */
  lemma EventCalls(log: Log, c: Ctx, e: Event)
    requires log.open && Process(c, e).Ok? && !Process(c, e).value.1 && !e.IsArtificialRotate()
    ensures ProcessEvent(log, c, e) ==
      var c' := Process(c, e).value.0;
      var w := SR.LogApply(log, SR.Write(Written(e, c')));
      Ok((if e.IsTerminator() then SR.LogApply(w, SR.Close) else w, c'))
  {
    hide Process, Written;
    var c' := Process(c, e).value.0;
    var write := SR.Write(Written(e, c'));
    if e.IsTerminator() {
      TwoCalls(log, write, SR.Close);
      assert OpsFor(See(log), c', false, e).value == [write, SR.Close];
    } else {
      OneCall(log, write);
      assert OpsFor(See(log), c', false, e).value == [write];
    }
  }

  /** Writing one more event of a file extends what the last file and the tail hold by it. */
  lemma WriteExtends(log: Log, e: Ev)
    requires log.open && log.files != []
    requires SM.Complete(LastFile(log).evs) && SM.NoBoundary(log.tail)
    ensures var w := SR.LogApply(log, SR.Write(e));
      && w.open && SameBefore(log, w) && LastFile(w).name == LastFile(log).name
      && LastFile(w).evs + w.tail == LastFile(log).evs + log.tail + [e]
      && LastFile(log).evs <= LastFile(w).evs
      && SM.Complete(LastFile(w).evs) && SM.NoBoundary(w.tail)
      && (e.boundary ==> w.tail == [])
  {
    var w := SR.LogApply(log, SR.Write(e));
    var k := |log.files| - 1;
    if e.boundary {
      assert w.files[..k] == log.files[..k];
      assert LastFile(w).evs + [] == LastFile(w).evs;
    } else {
      assert LastFile(w).evs + w.tail == LastFile(log).evs + log.tail + [e];
    }
  }

  /** One event that the grammar allows is accepted, written and followed. */
  lemma StepLocal(log: Log, c: Ctx, f: SrcFile, k: nat)
    requires Conn(log, c, f, k) && GoodEvent(f, k) && !PhaseOf(c.mode, f.events[..k + 1]).Bad?
    requires PhaseOf(c.mode, f.events[..k + 1]).Ended? ==> k + 1 == |f.events|
    ensures ProcessEvent(log, c, f.events[k]).Ok?
    ensures var (log', c') := ProcessEvent(log, c, f.events[k]).value;
      && c'.mode == c.mode && SameBefore(log, log')
      && LastFile(log).evs <= LastFile(log').evs
      && (Conn(log', c', f, k + 1) || (k + 1 == |f.events| && Closed(log', c', f)))
      && (PhaseOf(c.mode, f.events[..k + 1]).Ended? ==> Closed(log', c', f))
  {
    hide Process, NextPhase, ProcessEvent, Written, SR.LogApply, Copy, Offset, PhaseOf, StoredAs;
    var e := f.events[k];
    CopySnoc(c.mode, f.events, k);
    var p := PhaseOf(c.mode, f.events[..k]);
    ReaderFollows(c, p, e, Offset(f.events[..k]));
    PlainEvent(c.mode, p, e);
    EventCalls(log, c, e);
    var c' := Process(c, e).value.0;
    WriteExtends(log, Written(e, c'));
    if e.IsTerminator() {
      assert f.events[..k + 1] == f.events;
      EndedIsBoundary(e, PhaseOf(c.mode, f.events));
      CloseAfterTerminator(SR.LogApply(log, SR.Write(Written(e, c'))));
    }
  }

  /** One event of a file, in the middle or at the end of it. */
  lemma StepInFile(log: Log, c: Ctx, f: SrcFile, k: nat)
    requires Conn(log, c, f, k) && k < |f.events| && GoodFile(c.mode, f)
    ensures ProcessEvent(log, c, f.events[k]).Ok?
    ensures var (log', c') := ProcessEvent(log, c, f.events[k]).value;
      && c'.mode == c.mode && SameBefore(log, log')
      && LastFile(log).evs <= LastFile(log').evs
      && (Conn(log', c', f, k + 1) || (k + 1 == |f.events| && Closed(log', c', f)))
  {
    hide GoodFile, ProcessEvent, PhaseOf, Conn, Closed;
    GoodEvents(c.mode, f, k);
    if PhaseOf(c.mode, f.events[..k + 1]).Ended? {
      TerminatorIsLast(c.mode, f, k);
    }
    StepLocal(log, c, f, k);
  }

  lemma PlainEvent(mode: ReplicationMode, p: Phase, e: Event)
    requires !NextPhase(mode, p, e).Bad?
    ensures !e.artificial
  {
  }

  lemma EndedIsBoundary(e: Event, p: Phase)
    requires p.Ended?
    ensures StoredAs(p, e).boundary
  {
  }

  lemma CloseAfterTerminator(log: Log)
    requires log.tail == [] && log.files != []
    ensures SR.LogApply(log, SR.Close) == SR.Log(log.files, [], false)
  {
  }

  lemma NotEndedYet(mode: ReplicationMode, f: SrcFile, k: nat)
    requires GoodFile(mode, f) && k < |f.events|
    ensures !PhaseOf(mode, f.events[..k]).Ended?
  {
    hide PhaseOf;
  }

  lemma TerminatorIsLast(mode: ReplicationMode, f: SrcFile, k: nat)
    requires GoodFile(mode, f) && k < |f.events| && PhaseOf(mode, f.events[..k + 1]).Ended?
    ensures k + 1 == |f.events|
  {
    hide PhaseOf;
  }

  // ----- entering a file ---------------------------------------------------------------

  /** Between two files, or at the start of a connection: an artificial ROTATE to another file is accepted. */
  ghost predicate CanEnter(c: Ctx) {
    (c.state.GtidEvent? || c.state.AnyOther? || c.state.RotateArtificial?) && c.seen == c.expected
    && (c.state.RotateArtificial? || c.state.GtidEvent? ==> Clean(c))
  }

  ghost function Entered(c: Ctx, name: Name): Ctx {
    Ctx(Description, c.mode, Some(name), MAGIC_OFFSET, None, 0, 0, 0, false, c.cycle + 1)
  }

  lemma ReaderEnters(c: Ctx, name: Name)
    requires CanEnter(c) && c.name != Some(name)
    ensures Process(c, ArtificialRotate(name, MAGIC_OFFSET)) == Ok((Entered(c, name), true))
  {
  }

  lemma EnterNew(log: Log, c: Ctx, name: Name)
    requires CanEnter(c) && c.name != Some(name) && !SM.HasFile(log.files, name)
    requires log.open || log.tail == []
    ensures ProcessEvent(log, c, ArtificialRotate(name, MAGIC_OFFSET))
         == Ok((SR.Log(log.files + [SM.FileLog(name, [])], [], true), Entered(c, name)))
  {
    hide Process, CanEnter;
    ReaderEnters(c, name);
    var e := ArtificialRotate(name, MAGIC_OFFSET);
    var open := SR.Open(name);
    if log.open {
      if log.files != [] {
        assert log.files[|log.files| - 1].name != name;
      }
      TwoCalls(log, SR.Close, open);
      assert OpsFor(See(log), Entered(c, name), true, e).value == [SR.Close, open];
    } else {
      OneCall(log, open);
      assert OpsFor(See(log), Entered(c, name), true, e).value == [open];
    }
  }

  lemma EnterConnects(log: Log, c: Ctx, f: SrcFile)
    requires log.open && log.files != [] && LastFile(log) == SM.FileLog(f.name, []) && log.tail == []
    ensures Conn(log, Entered(c, f.name), f, 0)
  {
    assert f.events[..0] == [];
  }

  lemma EndCanEnter(log: Log, c: Ctx, f: SrcFile)
    requires GoodFile(c.mode, f) && (Conn(log, c, f, |f.events|) || Closed(log, c, f))
    ensures CanEnter(c) && c.name == Some(f.name)
  {
    assert f.events[..|f.events|] == f.events;
  }
}
