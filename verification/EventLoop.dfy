/** app.cpp: the event loop over the storage and reader objects. */
module EventLoop {
  import opened Prelude
  import opened BinlogNames
  import opened ReaderContext
  import opened Streaming
  import opened Application
  import opened EndToEnd
  import opened StorageClass
  import SM = StorageModel
  import SR = StorageRuns

  // ----- the calls of one event, case by case ------------------------------------------

  lemma RotateCalls(s: State, c: Ctx, e: Event, clock: seq<nat>)
    requires |clock| == 3 && Process(c, e).Ok? && e.IsArtificialRotate() && c.mode == s.mode
    ensures Process(c, e).value.1
    ensures var c' := Process(c, e).value.0;
      var seen := SeeState(s);
      var open := SR.Open(e.target);
      && (!seen.open ==> AppEvent(s, c, e, clock) == With(SR.Apply(s, open, clock[0]), c'))
      && (seen.open && seen.name != Some(e.target) ==>
            AppEvent(s, c, e, clock) ==
              var r := SR.Apply(s, SR.Close, clock[0]);
              if r.Err? then Err else With(SR.Apply(r.value, open, clock[1]), c'))
      && (seen.open && seen.name == Some(e.target) ==>
            AppEvent(s, c, e, clock) == if s.mode == Position && e.targetPos != seen.pos then Err else Ok((s, c')))
  {
    hide Process, SR.Run, SR.Apply, SeeState;
    RotateIsInfo(c, e);
    ModeStays(c, e);
    var c' := Process(c, e).value.0;
    var seen := SeeState(s);
    var ops := OpsFor(seen, c', true, e);
    if !seen.open {
      assert ops.value == [SR.Open(e.target)];
      RunOne(s, SR.Open(e.target), clock[..1]);
    } else if seen.name != Some(e.target) {
      assert ops.value == [SR.Close, SR.Open(e.target)];
      RunTwo(s, SR.Close, SR.Open(e.target), clock[..2]);
    } else if ops.Ok? {
      assert ops.value == [] && clock[..0] == [];
      RunNone(s);
    }
  }

  lemma PlainCalls(s: State, c: Ctx, e: Event, clock: seq<nat>)
    requires |clock| == 3 && Process(c, e).Ok? && !e.IsArtificialRotate()
    ensures var (c', info) := Process(c, e).value;
      var write := SR.Write(Written(e, c'));
      && (e.IsTerminator() ==>
            && !info
            && AppEvent(s, c, e, clock) ==
               var r := SR.Apply(s, write, clock[0]);
               if r.Err? then Err else With(SR.Apply(r.value, SR.Close, clock[1]), c'))
      && (!e.IsTerminator() ==>
            AppEvent(s, c, e, clock) == if info then Ok((s, c')) else With(SR.Apply(s, write, clock[0]), c'))
  {
    hide Process, SR.Run, SR.Apply, SeeState, Written;
    var (c', info) := Process(c, e).value;
    var write := SR.Write(Written(e, c'));
    var ops := OpsFor(SeeState(s), c', info, e);
    if e.IsTerminator() {
      TerminatorIsBoundary(c, e);
      assert ops.value == [write, SR.Close];
      RunTwo(s, write, SR.Close, clock[..2]);
    } else if info {
      assert ops.value == [] && clock[..0] == [];
      RunNone(s);
    } else {
      assert ops.value == [write];
      RunOne(s, write, clock[..1]);
    }
  }

  ghost function With(r: Result<State>, c: Ctx): Result<(State, Ctx)> {
    if r.Err? then Err else Ok((r.value, c))
  }

  lemma RunNone(s: State)
    ensures SR.Run(s, [], []) == Ok(s)
  {
  }

  lemma ModeStays(c: Ctx, e: Event)
    requires Process(c, e).Ok?
    ensures Process(c, e).value.0.mode == c.mode
  {
  }

  lemma OpenMeansFlushable(s: State, h: Hist)
    requires SM.Inv(s, h)
    ensures s.backend.stream.Some? <==> SM.CanFlush(s)
    ensures s.boundary <= |s.buffer|
    ensures s.backend.stream.Some? ==> s.records != []
  {
    if h.open { SM.CanFlushFromInv(s, h); }
  }

  class BinlogServer {
    const storage: BinlogStorage

    constructor (storage: BinlogStorage)
      ensures this.storage == storage
    {
      this.storage := storage;
    }

    /** open_binlog with its asserts. */
    method OpenBinlog(name: Name, now: nat) returns (ok: bool)
      modifies storage, storage.backend
      ensures ok <==> SR.Apply(old(storage.View()), SR.Open(name), now).Ok?
      ensures ok ==> storage.View() == SR.Apply(old(storage.View()), SR.Open(name), now).value
    {
      hide SM.OpenBinlog;
      var status := storage.OpenBinlog(name, now);
      ok := status.Ok? && storage.eventBuffer == [] && storage.boundary == 0 && storage.gtidsInBuffer == {}
            && storage.readyTimestamps.IsEmpty() && storage.incompleteTimestamps.IsEmpty();
    }

    method ProcessArtificialRotateEvent(e: Event, clock: seq<nat>, ghost h: Hist, ghost c: Ctx) returns (ok: bool)
      requires Tidy(storage.View(), h) && |clock| == 3 && c.mode == storage.mode
      requires Process(c, e).Ok? && e.IsArtificialRotate()
      modifies storage, storage.backend
      ensures ok <==> AppEvent(old(storage.View()), c, e, clock).Ok?
      ensures ok ==> AppEvent(old(storage.View()), c, e, clock) == Ok((storage.View(), Process(c, e).value.0))
    {
      hide SM.Inv, Process, SR.Apply, AppEvent, SM.CanFlush;
      RotateCalls(storage.View(), c, e, clock);
      OpenMeansFlushable(storage.View(), h);
      if storage.backend.stream.None? {
        ok := OpenBinlog(e.target, clock[0]);
        return;
      }
      var current := storage.records[|storage.records| - 1];
      if current.name != e.target {
        CloseIsApplied(storage.View(), clock[0]);
        storage.CloseBinlog(clock[0]);
        ok := OpenBinlog(e.target, clock[1]);
        return;
      }
      ok := storage.mode != Position || e.targetPos == current.size + |storage.eventBuffer|;
    }

    /** What process_binlog_event does with an event that is not an artificial ROTATE, once the reader has seen it. */
    method StoreEvent(e: Event, clock: seq<nat>, reader: Reader, info: bool, ghost h: Hist, ghost c: Ctx)
      returns (ok: bool)
      requires Tidy(storage.View(), h) && |clock| == 3 && Process(c, e) == Ok((reader.View(), info)) && Real(e)
      requires !e.IsArtificialRotate()
      modifies storage, storage.backend
      ensures ok <==> AppEvent(old(storage.View()), c, e, clock).Ok?
      ensures ok ==> AppEvent(old(storage.View()), c, e, clock) == Ok((storage.View(), reader.View()))
    {
      hide SM.Inv, Process, SR.Apply, AppEvent, SM.CanFlush, SM.WriteEvent;
      ghost var s := storage.View();
      PlainCalls(s, c, e, clock);
      OpenMeansFlushable(s, h);
      ok := true;
      if !info {
        WriteIsApplied(s, Written(e, reader.View()), clock[0]);
        if storage.backend.stream.None? {
          return false;
        }
        storage.WriteEvent(e.data, reader.View().AtBoundary(), reader.gtid, e.ts, reader.seqno, clock[0]);
      }
      if e.IsTerminator() {
        Accepts(s, h, Written(e, reader.View()));
        ghost var h1 := Call(s, h, SR.Write(Written(e, reader.View())), clock[0]);
        OpenMeansFlushable(storage.View(), h1);
        StillOpen(s, Written(e, reader.View()), clock[0]);
        CloseIsApplied(storage.View(), clock[1]);
        storage.CloseBinlog(clock[1]);
      }
    }

    method ProcessBinlogEvent(e: Event, clock: seq<nat>, reader: Reader, ghost h: Hist)
      returns (ok: bool, ghost h': Hist)
      requires Tidy(storage.View(), h) && |clock| == 3 && reader.mode == storage.mode && Real(e)
      modifies storage, storage.backend, reader
      ensures ok <==> AppEvent(old(storage.View()), old(reader.View()), e, clock).Ok?
      ensures ok ==> AppEvent(old(storage.View()), old(reader.View()), e, clock) == Ok((storage.View(), reader.View()))
      ensures ok ==> Tidy(storage.View(), h')
    {
      hide SM.Inv, Process, AppEvent, Tidy;
      ghost var c := reader.View();
      var info := reader.ProcessEventView(e);
      h' := h;
      if info.Err? {
        Unread(storage.View(), c, e, clock);
        return false, h;
      }
      if e.IsArtificialRotate() {
        RotateIsInfo(c, e);
        ok := ProcessArtificialRotateEvent(e, clock, h, c);
      } else {
        ok := StoreEvent(e, clock, reader, info.value, h, c);
      }
      h' := AppEventIff(old(storage.View()), h, c, e, clock);
    }

    /** receive_binlog_events, over the events that arrive; a timeout ends with discard and flush. */
    method ReceiveBinlogEvents(events: seq<Event>, clocks: seq<seq<nat>>, timedOut: bool, ghost h: Hist)
      returns (ok: bool)
      requires Tidy(storage.View(), h) && Timed(clocks, |events|) && forall i :: 0 <= i < |events| ==> Real(events[i])
      modifies storage, storage.backend
      ensures var r := AppFeed(old(storage.View()), FreshReader(old(storage.View())), events, clocks);
        && (ok <==> r.Ok?)
        && (ok && !timedOut ==> storage.View() == r.value.0)
        && (ok && timedOut ==> TimeOut(r.value.0) == Ok(storage.View()))
    {
      hide SM.Inv, Process, AppEvent, Tidy;
      ghost var s, c := storage.View(), FreshReader(storage.View());
      ghost var h' := h;
      var name := if storage.records == [] then None else Some(storage.records[|storage.records| - 1].name);
      var position := |storage.eventBuffer|
                      + if storage.records == [] then 0 else storage.records[|storage.records| - 1].size;
      var reader := new Reader(storage.mode, name, position);
      for i := 0 to |events|
        invariant Tidy(storage.View(), h') && fresh(reader) && reader.mode == storage.mode
        invariant AppFeed(s, c, events, clocks) == AppFeed(storage.View(), reader.View(), events[i..], clocks[i..])
      {
        assert events[i..][1..] == events[i + 1..] && clocks[i..][1..] == clocks[i + 1..];
        assert Real(events[i]);
        ok, h' := ProcessBinlogEvent(events[i], clocks[i], reader, h');
        if !ok {
          return;
        }
      }
      ok := true;
      if timedOut {
        FinishSteps(storage.View(), h');
        storage.DiscardIncompleteTransactionEvents();
        storage.FlushEventBuffer();
      }
    }
  }

  lemma Unread(s: State, c: Ctx, e: Event, clock: seq<nat>)
    requires |clock| == 3 && Process(c, e).Err?
    ensures AppEvent(s, c, e, clock).Err?
  {
  }

  lemma Accepts(s: State, h: Hist, e: Ev)
    requires SM.Inv(s, h) && s.backend.stream.Some?
    ensures SR.LogAccepts(SR.Abs(h), SR.Write(e))
  {
  }

  lemma StillOpen(s: State, e: Ev, now: nat)
    requires SM.CanFlush(s)
    ensures SM.WriteEvent(s, e, now).backend.stream == s.backend.stream
  {
  }

  /** The two calls after a timeout can be made and are what TimeOut says. */
  lemma FinishSteps(s: State, h: Hist)
    requires Tidy(s, h)
    ensures s.boundary <= |s.buffer|
    ensures var s1 := SM.DiscardIncomplete(s);
      (SM.CanFlush(s1) || s1.boundary == 0) && TimeOut(s) == Ok(SM.Flush(s1))
  {
    hide SM.Inv, SM.Flush, SR.Run;
    OpenMeansFlushable(s, h);
    RunTwo(s, SR.Discard, SR.FlushNow, [0, 0]);
    var h' := FinishFlushes(s, h);
  }

  lemma CloseIsApplied(s: State, now: nat)
    requires SM.CanFlush(s)
    ensures SR.Apply(s, SR.Close, now) == Ok(SM.CloseBinlog(s, now))
  {
  }

  lemma WriteIsApplied(s: State, e: Ev, now: nat)
    ensures SR.Apply(s, SR.Write(e), now) == if SM.CanFlush(s) then Ok(SM.WriteEvent(s, e, now)) else Err
  {
  }
}
