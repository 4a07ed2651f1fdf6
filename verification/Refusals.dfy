/**
 * What the reader refuses.  Of any list of events that arrives for a file, exactly the lists that follow the grammar
 * and whose next positions are exact get through.
 */
module Refusals {
  import opened Prelude
  import opened BinlogNames
  import opened ReaderContext
  import opened Streaming
  import SR = StorageRuns

  // ----- one event ---------------------------------------------------------------------

  /** A GTID event of the grammar except that it declares a transaction shorter than the event itself. */
  ghost predicate Overdrawn(mode: ReplicationMode, p: Phase, e: Event) {
    e.IsGtid() && e.txLength < e.size && !NextPhase(mode, p, e.(txLength := e.size)).Bad?
  }

  /** An event of the file, in a file of less than 4 GB. */
  ghost predicate Arrives(c: Ctx, p: Phase, e: Event, at: nat) {
    && Matches(c, p) && !p.Ended? && c.pos == at && !e.artificial
    && 0 < e.size && at + e.size < U32
    && (p.InTxn? ==> p.seen <= p.expected < U32 && p.seen <= at)
  }

  lemma AcceptsGtidIff(c: Ctx, p: Phase, e: Event, at: nat)
    requires Arrives(c, p, e, at) && e.IsGtid()
    ensures Process(c, e).Ok?
      <==> e.nextPos == at + e.size && (!NextPhase(c.mode, p, e).Bad? || Overdrawn(c.mode, p, e))
  {
    assert (at + e.size) % U32 == at + e.size && e.size % U32 == e.size;
  }

  lemma AcceptsInsideIff(c: Ctx, p: Phase, e: Event, at: nat)
    requires Arrives(c, p, e, at) && e.code.Other?
    ensures Process(c, e).Ok? <==> e.nextPos == at + e.size && !NextPhase(c.mode, p, e).Bad?
  {
    assert (at + e.size) % U32 == at + e.size;
    if c.state.AnyOther? { assert (c.seen + e.size) % U32 == c.seen + e.size; }
  }

  lemma AcceptsRestIff(c: Ctx, p: Phase, e: Event, at: nat)
    requires Arrives(c, p, e, at) && !e.IsGtid() && !e.code.Other?
    ensures Process(c, e).Ok? <==> e.nextPos == at + e.size && !NextPhase(c.mode, p, e).Bad?
  {
    assert (at + e.size) % U32 == at + e.size;
  }

  /** The reader accepts an event iff the grammar allows it or it is overdrawn, and its next position is exact. */
  lemma ReaderAcceptsIff(c: Ctx, p: Phase, e: Event, at: nat)
    requires Arrives(c, p, e, at)
    ensures Process(c, e).Ok?
      <==> e.nextPos == at + e.size && (!NextPhase(c.mode, p, e).Bad? || Overdrawn(c.mode, p, e))
  {
    hide Arrives, Process, NextPhase;
    if e.IsGtid() {
      AcceptsGtidIff(c, p, e, at);
    } else if e.code.Other? {
      AcceptsInsideIff(c, p, e, at);
    } else {
      AcceptsRestIff(c, p, e, at);
    }
  }

  /** An artificial ROTATE to a file is accepted iff no transaction and no preamble is cut short by it. */
  lemma RotateAcceptedIff(c: Ctx, p: Phase, e: Event)
    requires Matches(c, p) && e.IsArtificialRotate()
    ensures Process(c, e).Ok? <==> MayStart(p) && e.ts == 0 && e.nextPos == 0 && e.targetPos == MAGIC_OFFSET
  {
  }

  /** Other artificial events are refused, but for GTID events, whose flag is not looked at. */
  lemma ArtificialRefused(c: Ctx, e: Event)
    requires e.artificial && !e.code.Rotate?
    ensures if e.IsGtid() then Process(c, e) == Process(c, e.(artificial := false)) else Process(c, e).Err?
  {
    var (e', f) := (e.(artificial := false), Finish(c));
    if e.IsGtid() {
      assert InGtidEvent(c, e) == InGtidEvent(c, e');
      if f.Some? {
        var c' := f.value.(state := GtidEvent);
        assert InGtidEvent(c', e) == InGtidEvent(c', e');
      }
    }
  }

  /** The first event of a connection: an artificial ROTATE to the start of a file, or to the position asked for. */
  lemma FirstAcceptedIff(mode: ReplicationMode, name: Option<Name>, position: nat, e: Event)
    requires MAGIC_OFFSET <= position < U32
    ensures Process(Fresh(mode, name, position), e).Ok?
      <==> && e.IsArtificialRotate() && e.ts == 0 && e.nextPos == 0
           && e.targetPos == if mode == Position && name == Some(e.target) then position else MAGIC_OFFSET
  {
  }

  /** Whatever is written has the next position that its size gives, in 32 bits, and never zero. */
  lemma PositionAdvances(c: Ctx, e: Event)
    requires Process(c, e).Ok? && !Process(c, e).value.1
    ensures e.nextPos == (c.pos + e.size) % U32 && e.nextPos != 0
  {
  }

  /** A file that is continued: its first events are accepted as information only, whatever their next positions. */
  ghost predicate Continued(c: Ctx, name: Name, pos: nat) {
    c.state.Description? && c.infoOnlyPreamble && c.name == Some(name) && c.pos == pos
  }

  /** The description of a continued file: made up by the server in position mode, and so without a next position. */
  lemma DescriptionAgainIff(c: Ctx, name: Name, pos: nat, e: Event)
    requires Continued(c, name, pos)
    ensures Process(c, e).Ok?
      <==> e.code.FormatDescription? && !e.artificial && e.bodyOk && (c.mode == Position ==> e.nextPos == 0)
    ensures Process(c, e).Ok? ==> Process(c, e).value.1 && Process(c, e).value.0.pos == pos
  {
  }

  /** An artificial ROTATE to the file that is open changes nothing, and is refused in position mode elsewhere in it. */
  lemma RotateToOpenIff(log: Log, c: Ctx, e: Event)
    requires log.open && CurrentName(log) == Some(e.target) && e.IsArtificialRotate() && Process(c, e).Ok?
    ensures ProcessEvent(log, c, e).Ok? <==> c.mode == Position ==> e.targetPos == CurrentPosition(log)
    ensures ProcessEvent(log, c, e).Ok? ==> ProcessEvent(log, c, e).value.0 == log
  {
    RotateInfo(c, e);
    assert SR.LogRun(log, []) == log;
  }

  lemma RotateInfo(c: Ctx, e: Event)
    requires e.IsArtificialRotate() && Process(c, e).Ok?
    ensures Process(c, e).value.1 && Process(c, e).value.0.mode == c.mode
  {
  }

  // ----- behind an overdrawn event -----------------------------------------------------

  /** Behind an overdrawn GTID event everything is refused, so nothing of its transaction is ever complete. */
  lemma OverdrawnIsStuck(c: Ctx, e: Event)
    requires c.state.AnyOther? && c.seen > c.expected && c.seen + e.size < U32
    ensures Process(c, e).Err? && !c.AtBoundary()
  {
    assert (c.seen + e.size) % U32 == c.seen + e.size;
  }

  lemma OverdrawnState(c: Ctx, p: Phase, e: Event, at: nat)
    requires Arrives(c, p, e, at) && Overdrawn(c.mode, p, e) && Process(c, e).Ok?
    ensures var (c', info) := Process(c, e).value;
      c'.state.AnyOther? && c'.seen == e.size > c'.expected && !c'.AtBoundary() && !info
  {
    assert e.size % U32 == e.size;
  }

  // ----- all the events of a file ------------------------------------------------------

  /** These events continue a file, up to an overdrawn event at most, and nothing follows its terminator. */
  ghost predicate Continues(mode: ReplicationMode, done: seq<Event>, events: seq<Event>)
    decreases |events|
  {
    events == [] ||
    var (p, e) := (PhaseOf(mode, done), events[0]);
    && !p.Ended? && e.nextPos == Offset(done) + e.size
    && if NextPhase(mode, p, e).Bad? then Overdrawn(mode, p, e) && |events| == 1
       else Continues(mode, done + [e], events[1..])
  }

  ghost function Length(events: seq<Event>): nat {
    if events == [] then 0 else events[0].size + Length(events[1..])
  }

  ghost predicate Plain(events: seq<Event>) {
    forall k :: 0 <= k < |events| ==> !events[k].artificial && events[k].size > 0
  }

  lemma OnlyRotate(log: Log, c: Ctx, e: Event)
    requires c.state.RotateArtificial? && !e.artificial
    ensures ProcessEvent(log, c, e).Err?
  {
  }

  lemma {:induction false} SeenWithin(mode: ReplicationMode, events: seq<Event>)
    ensures var p := PhaseOf(mode, events); p.InTxn? ==> p.seen <= p.expected < U32 && p.seen <= Offset(events)
  {
    if events != [] { SeenWithin(mode, events[..|events| - 1]); }
  }

  lemma Snoc(mode: ReplicationMode, done: seq<Event>, e: Event)
    ensures PhaseOf(mode, done + [e]) == NextPhase(mode, PhaseOf(mode, done), e)
    ensures Offset(done + [e]) == Offset(done) + e.size
  {
    assert (done + [e])[..|done|] == done;
  }

  lemma ConnFacts(log: Log, c: Ctx, f: SrcFile)
    requires Conn(log, c, f, |f.events|)
    ensures Matches(c, PhaseOf(c.mode, f.events)) && c.pos == Offset(f.events) && log.open
  {
    assert f.events[..|f.events|] == f.events;
  }

  lemma ConnOneMore(log: Log, c: Ctx, f: SrcFile, e: Event)
    requires Conn(log, c, f, |f.events|)
    ensures Conn(log, c, SrcFile(f.name, f.events + [e]), |f.events|)
  {
    assert (f.events + [e])[..|f.events|] == f.events[..|f.events|];
  }

  lemma ProcessErr(log: Log, c: Ctx, e: Event)
    requires Process(c, e).Err?
    ensures ProcessEvent(log, c, e).Err?
  {
  }

  /** An event of the grammar is written. */
  lemma OneGood(log: Log, c: Ctx, f: SrcFile, e: Event)
    requires Conn(log, c, f, |f.events|) && !NextPhase(c.mode, PhaseOf(c.mode, f.events), e).Bad?
    requires 0 < e.size && e.nextPos == Offset(f.events) + e.size < U32
    ensures ProcessEvent(log, c, e).Ok?
    ensures var ((log', c'), f') := (ProcessEvent(log, c, e).value, SrcFile(f.name, f.events + [e]));
      && c'.mode == c.mode
      && if PhaseOf(c.mode, f'.events).Ended? then c'.state.RotateArtificial? else Conn(log', c', f', |f'.events|)
  {
    hide ProcessEvent, NextPhase, PhaseOf, Offset, Conn;
    var (f', n) := (SrcFile(f.name, f.events + [e]), |f.events|);
    Snoc(c.mode, f.events, e);
    ConnOneMore(log, c, f, e);
    assert f'.events[..n] == f.events && f'.events[..n + 1] == f'.events;
    StepLocal(log, c, f', n);
  }

  /** An overdrawn event is written, and nothing behind it is accepted. */
  lemma OneOverdrawn(log: Log, c: Ctx, f: SrcFile, events: seq<Event>)
    requires Conn(log, c, f, |f.events|) && !PhaseOf(c.mode, f.events).Ended? && events != [] && Plain(events)
    requires Overdrawn(c.mode, PhaseOf(c.mode, f.events), events[0])
    requires events[0].nextPos == Offset(f.events) + events[0].size && Offset(f.events) + Length(events) < U32
    ensures Feed(log, c, events).Ok? <==> |events| == 1
  {
    hide Process, NextPhase, PhaseOf, Offset, Conn, Overdrawn, ProcessEvent;
    var (p, e) := (PhaseOf(c.mode, f.events), events[0]);
    ConnFacts(log, c, f);
    SeenWithin(c.mode, f.events);
    ReaderAcceptsIff(c, p, e, Offset(f.events));
    OverdrawnState(c, p, e, Offset(f.events));
    EventCalls(log, c, e);
    var (log', c') := ProcessEvent(log, c, e).value;
    if |events| > 1 {
      OverdrawnIsStuck(c', events[1]);
      ProcessErr(log', c', events[1]);
    }
  }

  /** Of all lists of events for a file exactly those that continue it are accepted. */
  lemma {:induction false} FileAcceptedIff(log: Log, c: Ctx, f: SrcFile, events: seq<Event>)
    requires Conn(log, c, f, |f.events|) && !PhaseOf(c.mode, f.events).Ended?
    requires Plain(events) && Offset(f.events) + Length(events) < U32
    ensures Feed(log, c, events).Ok? <==> Continues(c.mode, f.events, events)
    decreases |events|
  {
    hide Process, NextPhase, PhaseOf, Offset, Conn, Overdrawn, ProcessEvent;
    if events != [] {
      var (p, e, at) := (PhaseOf(c.mode, f.events), events[0], Offset(f.events));
      ConnFacts(log, c, f);
      SeenWithin(c.mode, f.events);
      ReaderAcceptsIff(c, p, e, at);
      Snoc(c.mode, f.events, e);
      if Process(c, e).Err? {
        ProcessErr(log, c, e);
      } else if NextPhase(c.mode, p, e).Bad? {
        OneOverdrawn(log, c, f, events);
      } else {
        OneGood(log, c, f, e);
        var ((log', c'), f') := (ProcessEvent(log, c, e).value, SrcFile(f.name, f.events + [e]));
        if !PhaseOf(c.mode, f'.events).Ended? {
          FileAcceptedIff(log', c', f', events[1..]);
        } else if |events| > 1 {
          OnlyRotate(log', c', events[1]);
        }
      }
    }
  }

  /** A GTID event that declares less than its own size does get through. */
  lemma OverdrawnIsAccepted(c: Ctx, gtid: Gtid, name: Name)
    requires Matches(c, Idle) && c.pos < 1000
    ensures var e := Event(GtidLog, false, 1, 10, c.pos + 10, seq(10, _ => 0), name, 0, Some(gtid), 1, 5, true);
      Process(c, e).Ok? && NextPhase(c.mode, Idle, e).Bad?
  {
  }
}
