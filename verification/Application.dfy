/** The event loop on the real storage state: it does to the storage what the loop on the log says. */
module Application {
  import opened Prelude
  import opened BinlogNames
  import opened ReaderContext
  import opened Streaming
  import opened Alignment
  import opened Connections
  import opened Sessions
  import opened PurgedPast
  import SM = StorageModel
  import SR = StorageRuns

  type State = SM.State
  type Hist = SM.Hist

  ghost function SeeState(s: State): Seen {
    Seen(s.backend.stream.Some?, if s.IsEmpty() then None else Some(s.Current().name), s.CurrentPosition())
  }

  /** process_binlog_event on the storage; the clock is read by every call it makes. */
  ghost function AppEvent(s: State, c: Ctx, e: Event, clock: seq<nat>): Result<(State, Ctx)>
    requires |clock| == 3
  {
    var r := Process(c, e);
    if r.Err? then Err
    else
      var ops := OpsFor(SeeState(s), r.value.0, r.value.1, e);
      if ops.Err? then Err
      else
        var s' := SR.Run(s, ops.value, clock[..|ops.value|]);
        if s'.Err? then Err else Ok((s'.value, r.value.0))
  }

  ghost function AppFeed(s: State, c: Ctx, events: seq<Event>, clocks: seq<seq<nat>>): Result<(State, Ctx)>
    requires |clocks| == |events| && forall i :: 0 <= i < |clocks| ==> |clocks[i]| == 3
    decreases |events|
  {
    if events == [] then Ok((s, c))
    else
      var r := AppEvent(s, c, events[0], clocks[0]);
      if r.Err? then Err else AppFeed(r.value.0, r.value.1, events[1..], clocks[1..])
  }

  /** Between events no closed file has left timestamps behind. */
  ghost predicate Tidy(s: State, h: Hist) {
    SM.Inv(s, h) && (!h.open ==> s.incTs.IsEmpty())
  }

  lemma SameView(s: State, h: Hist)
    requires SM.Inv(s, h)
    ensures SeeState(s) == See(SR.Abs(h))
  {
    if h.files != [] {
      SM.BytesConcat(h.Last().evs, h.ready);
      var n := |h.files| - 1;
      assert s.records[n] == SM.FileRecord(s.mode, SM.AllGtids(h.base, h.files[..n]), h.files[n]);
    } else {
      SM.NoBytes();
    }
  }

  // ----- calls -------------------------------------------------------------------------

  lemma RunOne(s: State, op: SR.Op, clock: seq<nat>)
    requires |clock| == 1
    ensures SR.Run(s, [op], clock) == SR.Apply(s, op, clock[0])
  {
    hide SR.Apply;
    assert [op][..0] == [] && clock[..0] == [];
    assert SR.Run(s, [op][..0], clock[..0]) == Ok(s);
  }

  lemma RunTwo(s: State, a: SR.Op, b: SR.Op, clock: seq<nat>)
    requires |clock| == 2
    ensures SR.Run(s, [a, b], clock) ==
      var r := SR.Apply(s, a, clock[0]);
      if r.Err? then Err else SR.Apply(r.value, b, clock[1])
  {
    hide SR.Apply;
    assert [a, b][..1] == [a];
    RunOne(s, a, clock[..1]);
  }

  lemma CloseTs(s: State, now: nat)
    requires SR.Apply(s, SR.Close, now).Ok?
    ensures SR.Apply(s, SR.Close, now).value.incTs == s.incTs
  {
  }

  lemma CallKeepsBase(h: Hist, h': Hist, op: SR.Op)
    requires h' == SR.HistApply(h, op) || h' == SM.HistFlush(SR.HistApply(h, op))
    ensures h'.base == h.base
  {
    SR.BaseKept(h, op);
  }

  lemma Open(h: Hist)
    ensures SR.Abs(h).open == h.open && SR.Abs(h).tail == h.tail
  {
  }

  /** One call that the log accepts and that finds no left-over timestamps succeeds. */
  lemma Call(s: State, h: Hist, op: SR.Op, now: nat) returns (h': Hist)
    requires SM.Inv(s, h) && SR.LogAccepts(SR.Abs(h), op) && (op.Open? ==> s.incTs.IsEmpty())
    requires op.Write? ==> op.e.bytes != []
    ensures SR.Apply(s, op, now).Ok? && SM.Inv(SR.Apply(s, op, now).value, h')
    ensures SR.Abs(h') == SR.LogApply(SR.Abs(h), op) && h'.base == h.base
  {
    hide SM.Inv, SR.Apply, SR.Abs, SR.LogApply, SR.HistApply, SM.HistFlush, SR.LogAccepts;
    SR.FailsIff(s, h, op, now);
    h' := SR.StepRefines(s, h, op, now);
    CallKeepsBase(h, h', op);
  }

  // ----- one event ---------------------------------------------------------------------

  ghost predicate RotatesAway(log: Log, e: Event) {
    e.IsArtificialRotate() && log.open && CurrentName(log) != Some(e.target)
  }

  /** Rotating away from an open file drops events that had timestamps. */
  ghost predicate Leaks(log: Log, e: Event) {
    RotatesAway(log, e) && exists i :: 0 <= i < |log.tail| && log.tail[i].ts != 0
  }

  /** A terminator the reader accepts is written, as a boundary. */
  lemma TerminatorIsBoundary(c: Ctx, e: Event)
    requires Process(c, e).Ok? && e.IsTerminator()
    ensures Process(c, e).value.0.AtBoundary() && !Process(c, e).value.1
  {
  }

  lemma RotateIsInfo(c: Ctx, e: Event)
    requires Process(c, e).Ok? && e.IsArtificialRotate()
    ensures Process(c, e).value.1
  {
  }

  lemma StampsOfTail(s: State, h: Hist)
    requires SM.Inv(s, h) && h.open
    ensures s.incTs.IsEmpty() <==> forall i :: 0 <= i < |h.tail| ==> h.tail[i].ts == 0
  {
    SM.StampsEmptyIff(h.tail);
  }

  /** Closing one file and opening another works iff nothing with a timestamp is dropped. */
  lemma CloseAndOpen(s: State, h: Hist, name: Name, clock: seq<nat>) returns (h': Hist)
    requires Tidy(s, h) && h.open && |clock| == 2
    ensures var log := SR.Abs(h);
      var ops := [SR.Close, SR.Open(name)];
      && (SR.Run(s, ops, clock).Ok? <==> Accepted(log, ops) && forall i :: 0 <= i < |log.tail| ==> log.tail[i].ts == 0)
      && (SR.Run(s, ops, clock).Ok? ==>
            && Tidy(SR.Run(s, ops, clock).value, h') && SR.Abs(h') == SR.LogRun(log, ops) && h'.base == h.base)
  {
    hide SM.Inv, SR.Apply, SR.Abs, SR.LogRun, SR.Run;
    var log := SR.Abs(h);
    Open(h);
    StampsOfTail(s, h);
    RunTwo(s, SR.Close, SR.Open(name), clock);
    var h1 := Call(s, h, SR.Close, clock[0]);
    var s1 := SR.Apply(s, SR.Close, clock[0]).value;
    CloseTs(s, clock[0]);
    SR.FailsIff(s1, h1, SR.Open(name), clock[1]);
    AcceptedTwo(log, SR.Close, SR.Open(name));
    h' := h1;
    if SR.Apply(s1, SR.Open(name), clock[1]).Ok? {
      h' := Call(s1, h1, SR.Open(name), clock[1]);
      Open(h');
    }
  }

  lemma AcceptedOne(log: Log, a: SR.Op)
    ensures Accepted(log, [a]) <==> SR.LogAccepts(log, a)
    ensures SR.LogRun(log, [a]) == SR.LogApply(log, a)
  {
    hide SR.LogAccepts, SR.LogApply;
    assert [a][..0] == [];
    assert SR.LogRun(log, [a][..0]) == log;
    assert Accepted(log, [a]) ==> SR.LogAccepts(SR.LogRun(log, [a][..0]), [a][0]);
  }

  lemma AcceptedTwo(log: Log, a: SR.Op, b: SR.Op)
    ensures Accepted(log, [a, b]) <==> SR.LogAccepts(log, a) && SR.LogAccepts(SR.LogApply(log, a), b)
    ensures SR.LogRun(log, [a, b]) == SR.LogApply(SR.LogApply(log, a), b)
  {
    hide SR.LogAccepts, SR.LogApply;
    AcceptedOne(log, a);
    assert [a, b][..1] == [a];
    assert [a, b][..0] == [];
    assert SR.LogRun(log, [a, b][..0]) == log;
    assert Accepted(log, [a, b]) ==> SR.LogAccepts(SR.LogRun(log, [a, b][..0]), [a, b][0]);
    assert Accepted(log, [a, b]) ==> SR.LogAccepts(SR.LogRun(log, [a, b][..1]), [a, b][1]);
  }

  /** Opening the first file or the same file again, or writing: succeeds iff the log accepts it. */
  lemma SingleCall(s: State, h: Hist, op: SR.Op, clock: seq<nat>) returns (h': Hist)
    requires Tidy(s, h) && |clock| == 1 && (op.Open? || (op.Write? && op.e.bytes != []))
    ensures var log := SR.Abs(h);
      && (SR.Run(s, [op], clock).Ok? <==> Accepted(log, [op]))
      && (SR.Run(s, [op], clock).Ok? ==>
            && Tidy(SR.Run(s, [op], clock).value, h') && SR.Abs(h') == SR.LogRun(log, [op]) && h'.base == h.base)
  {
    hide SM.Inv, SR.Apply, SR.Abs, SR.LogRun, SR.Run;
    var log := SR.Abs(h);
    Open(h);
    RunOne(s, op, clock);
    AcceptedOne(log, op);
    SR.FailsIff(s, h, op, clock[0]);
    h' := h;
    if SR.LogAccepts(log, op) {
      h' := Call(s, h, op, clock[0]);
      Open(h');
    }
  }

  /** Writing a terminator and closing its file: succeeds iff the file is open. */
  lemma WriteAndClose(s: State, h: Hist, e: Ev, clock: seq<nat>) returns (h': Hist)
    requires Tidy(s, h) && |clock| == 2 && e.boundary && e.bytes != []
    ensures var log := SR.Abs(h);
      var ops := [SR.Write(e), SR.Close];
      && (SR.Run(s, ops, clock).Ok? <==> Accepted(log, ops))
      && (SR.Run(s, ops, clock).Ok? ==>
            && Tidy(SR.Run(s, ops, clock).value, h') && SR.Abs(h') == SR.LogRun(log, ops) && h'.base == h.base)
  {
    hide SM.Inv, SR.Apply, SR.Abs, SR.LogRun, SR.Run;
    var log := SR.Abs(h);
    Open(h);
    RunTwo(s, SR.Write(e), SR.Close, clock);
    AcceptedTwo(log, SR.Write(e), SR.Close);
    SR.FailsIff(s, h, SR.Write(e), clock[0]);
    h' := h;
    if log.open {
      var h1 := Call(s, h, SR.Write(e), clock[0]);
      var s1 := SR.Apply(s, SR.Write(e), clock[0]).value;
      Open(h1);
      StampsOfTail(s1, h1);
      h' := Call(s1, h1, SR.Close, clock[1]);
      CloseTs(s1, clock[1]);
      Open(h');
    }
  }

  /**
   * One event: the storage accepts it exactly when the log does and no dropped event had a timestamp,
   * and then it stands for the log's result.
   */
  lemma AppEventIff(s: State, h: Hist, c: Ctx, e: Event, clock: seq<nat>) returns (h': Hist)
    requires Tidy(s, h) && |clock| == 3 && (Process(c, e).Ok? && !Process(c, e).value.1 ==> e.data != [])
    ensures AppEvent(s, c, e, clock).Ok? <==> ProcessEvent(SR.Abs(h), c, e).Ok? && !Leaks(SR.Abs(h), e)
    ensures AppEvent(s, c, e, clock).Ok? ==>
      && Tidy(AppEvent(s, c, e, clock).value.0, h') && h'.base == h.base
      && ProcessEvent(SR.Abs(h), c, e) == Ok((SR.Abs(h'), AppEvent(s, c, e, clock).value.1))
  {
    hide SM.Inv, SR.Abs, SR.LogRun, SR.Run, Process, Accepted, SM.HasFile;
    h' := h;
    if Process(c, e).Ok? {
      var (c', info) := Process(c, e).value;
      SameView(s, h);
      Open(h);
      var seen := SeeState(s);
      var ops := OpsFor(seen, c', info, e);
      if e.IsArtificialRotate() {
        RotateIsInfo(c, e);
        if RotatesAway(SR.Abs(h), e) {
          assert ops.value == [SR.Close, SR.Open(e.target)];
          h' := CloseAndOpen(s, h, e.target, clock[..2]);
        } else if !h.open {
          assert ops.value == [SR.Open(e.target)];
          h' := SingleCall(s, h, SR.Open(e.target), clock[..1]);
        } else {
          assert ops.Ok? ==> ops.value == [];
          NoCall(s, h);
          assert clock[..0] == [];
        }
      } else if e.IsTerminator() {
        TerminatorIsBoundary(c, e);
        assert ops.value == [SR.Write(Written(e, c')), SR.Close];
        h' := WriteAndClose(s, h, Written(e, c'), clock[..2]);
      } else if info {
        assert ops.value == [];
        NoCall(s, h);
        assert clock[..0] == [];
      } else {
        assert ops.value == [SR.Write(Written(e, c'))];
        h' := SingleCall(s, h, SR.Write(Written(e, c')), clock[..1]);
      }
    }
  }

  lemma NoCall(s: State, h: Hist)
    ensures SR.Run(s, [], []) == Ok(s) && SR.LogRun(SR.Abs(h), []) == SR.Abs(h) && Accepted(SR.Abs(h), [])
  {
  }

  // ----- files that end before their first transaction ---------------------------------

  /** A file the server left after its preamble, without a transaction and without a terminator. */
  ghost predicate Bare(f: SrcFile) {
    |f.events| == 2 && (f.events[0].ts != 0 || f.events[1].ts != 0)
  }

  /** Among the next n events from file j, event k, the server moves on from a bare file. */
  ghost predicate Stuck(src: seq<SrcFile>, j: nat, k: nat, n: nat)
    requires j < |src| && k <= |src[j].events|
    decreases |src| - j
  {
    && j + 1 < |src| && n > |src[j].events| - k
    && (Bare(src[j]) || Stuck(src, j + 1, 0, n - (|src[j].events| - k) - 1))
  }

  lemma PhaseAtEnd(mode: ReplicationMode, f: SrcFile)
    requires GoodFile(mode, f)
    ensures |f.events| > 2 ==> Copy(mode, f.events)[|f.events| - 1].boundary
    ensures |f.events| == 2 ==> SM.NoBoundary(Copy(mode, f.events))
    ensures PhaseOf(mode, f.events).Ended? ==> |f.events| > 2
  {
    hide PhaseOf, StoredAs, NextPhase, Offset;
    var n := |f.events|;
    FirstPhases(mode, f);
    CopySnoc(mode, f.events, n - 1);
    assert f.events[..n] == f.events;
    if n > 2 {
      GoodEvents(mode, f, n - 1);
      SecondIsPrevious(mode, f, n);
      BoundaryOf(PhaseOf(mode, f.events), f.events[n - 1]);
    } else {
      CopySnoc(mode, f.events, 0);
      BoundaryOf(PhaseOf(mode, f.events[..1]), f.events[0]);
      BoundaryOf(PhaseOf(mode, f.events[..2]), f.events[1]);
      assert Copy(mode, f.events[..0]) == [];
    }
  }

  lemma BoundaryOf(p: Phase, e: Event)
    ensures StoredAs(p, e).boundary <==> p.Ended? || (p.InTxn? && p.seen == p.expected)
  {
  }

  lemma SecondIsPrevious(mode: ReplicationMode, f: SrcFile, n: nat)
    requires GoodFile(mode, f) && 2 < n <= |f.events|
    ensures !PhaseOf(mode, f.events[..n]).Idle?
  {
    hide GoodFile, PhaseOf, NextPhase, Offset;
    GoodEvents(mode, f, n - 1);
    GoodEvents(mode, f, n - 2);
    GoodEvents(mode, f, n - 3);
    ThirdIsNotIdle(mode, PhaseOf(mode, f.events[..n - 3]), f.events[n - 3], f.events[n - 2], f.events[n - 1]);
  }

  lemma ThirdIsNotIdle(mode: ReplicationMode, p: Phase, a: Event, b: Event, c: Event)
    ensures !NextPhase(mode, NextPhase(mode, NextPhase(mode, p, a), b), c).Idle?
  {
  }

  /** Moving on from file j leaks exactly when that file is bare. */
  lemma LeaksIff(log: Log, c: Ctx, src: seq<SrcFile>, at: seq<nat>, j: nat)
    requires GoodSource(c.mode, src) && j + 1 < |src| && Standing(log, c, src, at, j, |src[j].events|)
    ensures Leaks(log, ArtificialRotate(src[j + 1].name, MAGIC_OFFSET)) <==> Bare(src[j])
  {
    hide GoodFile, Aligned, Copy, PhaseOf;
    var f := src[j];
    PhaseAtEnd(c.mode, f);
    assert f.events[..|f.events|] == f.events;
    if Conn(log, c, f, |f.events|) {
      TailAtEnd(c.mode, f, LastFile(log).evs, log.tail);
    }
  }

  lemma TailAtEnd(mode: ReplicationMode, f: SrcFile, evs: seq<Ev>, tail: seq<Ev>)
    requires GoodFile(mode, f) && evs + tail == Copy(mode, f.events)
    requires SM.Complete(evs) && SM.NoBoundary(tail)
    ensures (exists i :: 0 <= i < |tail| && tail[i].ts != 0) <==> Bare(f)
  {
    hide GoodFile, PhaseOf;
    PhaseAtEnd(mode, f);
    FirstPhases(mode, f);
    ConcatEnds(evs, tail);
    if |f.events| == 2 {
      assert tail == Copy(mode, f.events);
      StampOfCopy(mode, f.events, 0);
      StampOfCopy(mode, f.events, 1);
    }
  }

  lemma StampOfCopy(mode: ReplicationMode, events: seq<Event>, i: nat)
    requires i < |events|
    ensures Copy(mode, events)[i].ts == events[i].ts
  {
    CopyPrefix(mode, events, i + 1);
    CopySnoc(mode, events, i);
  }

  // ----- the rest of a connection ------------------------------------------------------

  lemma LeaksUnpurged(past: seq<FileLog>, log: Log, e: Event)
    requires Covers(past, log)
    ensures Leaks(Unpurged(past, log), e) <==> Leaks(log, e)
  {
    SeeUnpurged(past, log);
  }

  /** One more event on the storage: refused iff it leads away from a bare file. */
  lemma AppStep(s: State, h: Hist, past: seq<FileLog>, c: Ctx, src: seq<SrcFile>, at: seq<nat>, j: nat, k: nat,
                rest: seq<Event>, clock: seq<nat>)
    returns (h': Hist)
    requires Tidy(s, h) && GoodSource(c.mode, src) && rest != [] && |clock| == 3
    requires Covers(past, SR.Abs(h)) && Settled(Unpurged(past, SR.Abs(h)), c, src, at, j, k, rest)
    ensures j < |src| && (AppEvent(s, c, rest[0], clock).Ok? <==> k < |src[j].events| || !Bare(src[j]))
    ensures ProcessEvent(SR.Abs(h), c, rest[0]).Ok?
    ensures AppEvent(s, c, rest[0], clock).Ok? ==>
      && Tidy(AppEvent(s, c, rest[0], clock).value.0, h') && h'.base == h.base
      && ProcessEvent(SR.Abs(h), c, rest[0]) == Ok((SR.Abs(h'), AppEvent(s, c, rest[0], clock).value.1))
  {
    hide Tidy, SR.Abs, AppEvent, ProcessEvent, Process, Standing, Remaining, GoodFile, Leaks, Bare, Unpurged, Covers;
    var log := Unpurged(past, SR.Abs(h));
    SettledBasics(log, c, src, at, j, k, rest);
    RemainingHead(src, j, k);
    var at', j', k' := OneMore(log, c, src, at, j, k, rest);
    EventUnpurged(past, SR.Abs(h), c, rest[0]);
    LeaksUnpurged(past, SR.Abs(h), rest[0]);
    if k < |src[j].events| {
      RealEvent(c.mode, src[j], k);
      NoLeakInside(log, rest[0]);
    } else {
      AcceptedProcess(log, c, rest[0]);
      RotateIsInfo(c, rest[0]);
      LeaksIff(log, c, src, at, j);
    }
    h' := AppEventIff(s, h, c, rest[0], clock);
  }

  lemma AcceptedProcess(log: Log, c: Ctx, e: Event)
    requires ProcessEvent(log, c, e).Ok?
    ensures Process(c, e).Ok?
  {
  }

  lemma RealEvent(mode: ReplicationMode, f: SrcFile, k: nat)
    requires GoodFile(mode, f) && k < |f.events|
    ensures f.events[k].data != [] && !f.events[k].artificial
  {
    GoodEvents(mode, f, k);
    PlainEvent(mode, PhaseOf(mode, f.events[..k]), f.events[k]);
  }

  lemma NoLeakInside(log: Log, e: Event)
    requires !e.artificial
    ensures !Leaks(log, e)
  {
  }

  /** The storage accepts the next n events iff they do not lead away from a bare file. */
  lemma {:induction false} AppFeedIff(s: State, h: Hist, past: seq<FileLog>, c: Ctx, src: seq<SrcFile>, at: seq<nat>,
                                      j: nat, k: nat, rest: seq<Event>, n: nat, clocks: seq<seq<nat>>)
    returns (h': Hist)
    requires Tidy(s, h) && GoodSource(c.mode, src) && n <= |rest| && Timed(clocks, n)
    requires Covers(past, SR.Abs(h)) && Settled(Unpurged(past, SR.Abs(h)), c, src, at, j, k, rest)
    ensures j < |src| && k <= |src[j].events| && (AppFeed(s, c, rest[..n], clocks).Ok? <==> !Stuck(src, j, k, n))
    ensures AppFeed(s, c, rest[..n], clocks).Ok? ==>
      && Tidy(AppFeed(s, c, rest[..n], clocks).value.0, h') && h'.base == h.base
      && Feed(SR.Abs(h), c, rest[..n]) == Ok((SR.Abs(h'), AppFeed(s, c, rest[..n], clocks).value.1))
    decreases n
  {
    hide Tidy, SR.Abs, AppEvent, ProcessEvent, Standing, Remaining, GoodSource, Bare, Unpurged, Covers;
    var log := Unpurged(past, SR.Abs(h));
    SettledBasics(log, c, src, at, j, k, rest);
    h' := h;
    if n == 0 {
      assert rest[..0] == [];
    } else {
      var at1, j1, k1 := OneMore(log, c, src, at, j, k, rest);
      EventUnpurged(past, SR.Abs(h), c, rest[0]);
      var h1 := AppStep(s, h, past, c, src, at, j, k, rest, clocks[0]);
      assert rest[..n][1..] == rest[1..][..n - 1];
      assert rest[..n][0] == rest[0];
      EnoughLeft(src, j, k, rest);
      var r := AppEvent(s, c, rest[0], clocks[0]);
      if r.Ok? {
        h' := AppFeedIff(r.value.0, h1, past, r.value.1, src, at1, j1, k1, rest[1..], n - 1, clocks[1..]);
      }
    }
  }

  lemma EnoughLeft(src: seq<SrcFile>, j: nat, k: nat, rest: seq<Event>)
    requires j < |src| && k <= |src[j].events| && rest == Remaining(src, j, k) != []
    ensures k == |src[j].events| ==> j + 1 < |src|
  {
  }

  lemma SettledBasics(log: Log, c: Ctx, src: seq<SrcFile>, at: seq<nat>, j: nat, k: nat, rest: seq<Event>)
    requires Settled(log, c, src, at, j, k, rest)
    ensures j < |src| && k <= |src[j].events|
  {
  }

  // ----- the start of a connection -----------------------------------------------------

  ghost predicate Leakless(log: Log, c: Ctx, events: seq<Event>)
    decreases |events|
  {
    events != [] ==>
      && !Leaks(log, events[0])
      && var r := ProcessEvent(log, c, events[0]);
         r.Ok? ==> Leakless(r.value.0, r.value.1, events[1..])
  }

  ghost predicate Timed(clocks: seq<seq<nat>>, n: nat) {
    |clocks| == n && forall i :: 0 <= i < n ==> |clocks[i]| == 3
  }

  ghost predicate Real(e: Event) {
    e.data != [] || e.IsArtificialRotate()
  }

  /** Where nothing leaks, the storage follows the log. */
  lemma {:induction false} AppFollows(s: State, h: Hist, c: Ctx, events: seq<Event>, clocks: seq<seq<nat>>)
    returns (h': Hist)
    requires Tidy(s, h) && Timed(clocks, |events|) && Leakless(SR.Abs(h), c, events)
    requires Feed(SR.Abs(h), c, events).Ok? && forall i :: 0 <= i < |events| ==> Real(events[i])
    ensures AppFeed(s, c, events, clocks).Ok? && Tidy(AppFeed(s, c, events, clocks).value.0, h') && h'.base == h.base
    ensures Feed(SR.Abs(h), c, events) == Ok((SR.Abs(h'), AppFeed(s, c, events, clocks).value.1))
    decreases |events|
  {
    hide Tidy, SR.Abs, AppEvent, ProcessEvent, Leaks, Process;
    h' := h;
    if events != [] {
      var e := events[0];
      AcceptedProcess(SR.Abs(h), c, e);
      assert Real(e);
      if e.IsArtificialRotate() { RotateIsInfo(c, e); }
      var h1 := AppEventIff(s, h, c, e, clocks[0]);
      var (s1, c1) := AppEvent(s, c, e, clocks[0]).value;
      h' := AppFollows(s1, h1, c1, events[1..], clocks[1..]);
    }
  }

  lemma {:induction false} AppFeedConcat(s: State, c: Ctx, a: seq<Event>, b: seq<Event>, clocks: seq<seq<nat>>)
    requires Timed(clocks, |a| + |b|)
    ensures AppFeed(s, c, a + b, clocks) ==
      var r := AppFeed(s, c, a, clocks[..|a|]);
      if r.Err? then Err else AppFeed(r.value.0, r.value.1, b, clocks[|a|..])
    decreases |a|
  {
    hide AppEvent;
    if a == [] {
      assert a + b == b && clocks[0..] == clocks;
    } else {
      assert (a + b)[1..] == a[1..] + b;
      var r := AppEvent(s, c, a[0], clocks[0]);
      if r.Ok? {
        AppFeedConcat(r.value.0, r.value.1, a[1..], b, clocks[1..]);
        assert clocks[..|a|][1..] == clocks[1..][..|a| - 1];
        assert clocks[1..][|a| - 1..] == clocks[|a|..];
      }
    }
  }

  lemma {:induction false} PlainLeakless(log: Log, c: Ctx, events: seq<Event>)
    requires forall i :: 0 <= i < |events| ==> !events[i].artificial
    ensures Leakless(log, c, events)
    decreases |events|
  {
    hide ProcessEvent;
    if events != [] {
      NoLeakInside(log, events[0]);
      var r := ProcessEvent(log, c, events[0]);
      if r.Ok? { PlainLeakless(r.value.0, r.value.1, events[1..]); }
    }
  }

  /** A preamble never leaks: nothing unfinished is there to be dropped. */
  lemma PreambleLeakless(log: Log, c: Ctx, events: seq<Event>)
    requires log.tail == [] && forall i :: 0 < i < |events| ==> !events[i].artificial
    ensures Leakless(log, c, events)
  {
    hide ProcessEvent;
    if events != [] {
      var r := ProcessEvent(log, c, events[0]);
      if r.Ok? { PlainLeakless(r.value.0, r.value.1, events[1..]); }
    }
  }

  /** receive_binlog_events creates the reader from the storage's name and position. */
  ghost function FreshReader(s: State): Ctx {
    Fresh(s.mode, SeeState(s).name, SeeState(s).pos)
  }

  lemma LeadInIsReal(mode: ReplicationMode, log: Log, src: seq<SrcFile>, at: seq<nat>, j: nat)
    requires GoodSource(mode, src) && |at| == |log.files| && j < |src| && |src[j].events| >= 2
    ensures var pre := LeadIn(mode, log, at, src, j);
      forall i :: 0 <= i < |pre| ==> Real(pre[i]) && (i > 0 ==> !pre[i].artificial)
  {
    hide GoodFile;
    RealEvent(mode, src[j], 0);
    RealEvent(mode, src[j], 1);
  }

  lemma LeadInStored(s: State, h: Hist, past: seq<FileLog>, src: seq<SrcFile>, at: seq<nat>, j: nat, stream: seq<Event>,
                     n: nat, clocks: seq<seq<nat>>)
    returns (h': Hist)
    requires Tidy(s, h) && Covers(past, SR.Abs(h)) && GoodSource(s.mode, src)
    requires var log := Unpurged(past, SR.Abs(h));
      && AtRest(s.mode, log, src, at) && Resumes(s.mode, log, src, at, j, stream)
      && n <= |LeadIn(s.mode, log, at, src, j)| && Timed(clocks, n)
    ensures var some := LeadIn(s.mode, Unpurged(past, SR.Abs(h)), at, src, j)[..n];
      var r := AppFeed(s, FreshReader(s), some, clocks);
      && r.Ok? && Tidy(r.value.0, h') && h'.base == h.base
      && Feed(SR.Abs(h), FreshContext(SR.Abs(h), s.mode), some) == Ok((SR.Abs(h'), r.value.1))
  {
    hide Tidy, SR.Abs, Feed, AppFeed, FreshReader, FreshContext, LeadIn, Resumes, Standing, Grows, CutOff, GoodSource,
      Leakless, Covers;
    var log := Unpurged(past, SR.Abs(h));
    SameReader(s, h);
    SameContext(past, SR.Abs(h), s.mode);
    ResumesBasics(s.mode, log, src, at, j, stream);
    var pre := LeadIn(s.mode, log, at, src, j);
    LeadInIsReal(s.mode, log, src, at, j);
    if n < |pre| {
      LeadInCut(s.mode, log, src, at, j, stream, n);
    } else {
      assert pre[..n] == pre;
      var at' := LeadInStands(s.mode, log, src, at, j, stream);
    }
    FeedUnpurged(past, SR.Abs(h), FreshContext(log, s.mode), pre[..n]);
    PreambleLeakless(SR.Abs(h), FreshContext(log, s.mode), pre[..n]);
    h' := AppFollows(s, h, FreshReader(s), pre[..n], clocks);
  }

  lemma SameContext(past: seq<FileLog>, log: Log, mode: ReplicationMode)
    requires Covers(past, log)
    ensures FreshContext(Unpurged(past, log), mode) == FreshContext(log, mode)
  {
    SeeUnpurged(past, log);
  }

  lemma SameReader(s: State, h: Hist)
    requires Tidy(s, h)
    ensures FreshReader(s) == FreshContext(SR.Abs(h), s.mode)
  {
    hide SM.Inv;
    SameView(s, h);
  }

  /**
   * A connection on the storage, whatever has been purged before: refused iff it leads away from a bare file, otherwise
   * it does what the log says.
   */
  lemma AppConnectionIff(s: State, h: Hist, past: seq<FileLog>, src: seq<SrcFile>, at: seq<nat>, j: nat,
                         stream: seq<Event>, n: nat, clocks: seq<seq<nat>>)
    returns (h': Hist)
    requires Tidy(s, h) && Covers(past, SR.Abs(h)) && GoodSource(s.mode, src)
    requires AtRest(s.mode, Unpurged(past, SR.Abs(h)), src, at)
    requires Resumes(s.mode, Unpurged(past, SR.Abs(h)), src, at, j, stream) && n <= |stream| && Timed(clocks, n)
    ensures var log := Unpurged(past, SR.Abs(h));
      var lead, k := |LeadIn(s.mode, log, at, src, j)|, FirstNew(log, at, j);
      AppFeed(s, FreshReader(s), stream[..n], clocks).Ok? <==> n <= lead || !Stuck(src, j, k, n - lead)
    ensures var r := AppFeed(s, FreshReader(s), stream[..n], clocks);
      r.Ok? ==>
        && Tidy(r.value.0, h') && h'.base == h.base
        && Feed(SR.Abs(h), FreshContext(SR.Abs(h), s.mode), stream[..n]) == Ok((SR.Abs(h'), r.value.1))
  {
    hide Tidy, SR.Abs, Feed, AppFeed, FreshReader, FreshContext, LeadIn, FirstNew, Resumes, Standing, Grows, GoodSource,
      Remaining, Stuck, AtRest, Unpurged, Covers;
    var log := Unpurged(past, SR.Abs(h));
    ResumesBasics(s.mode, log, src, at, j, stream);
    var pre, k := LeadIn(s.mode, log, at, src, j), FirstNew(log, at, j);
    if n <= |pre| {
      assert stream[..n] == pre[..n];
      h' := LeadInStored(s, h, past, src, at, j, stream, n, clocks);
    } else {
      var m := n - |pre|;
      var rest := Remaining(src, j, k);
      assert stream[..n] == pre + rest[..m];
      assert pre[..|pre|] == pre;
      var h1 := LeadInStored(s, h, past, src, at, j, stream, |pre|, clocks[..|pre|]);
      var at1 := LeadInStands(s.mode, log, src, at, j, stream);
      SameContext(past, SR.Abs(h), s.mode);
      FeedUnpurged(past, SR.Abs(h), FreshContext(log, s.mode), pre);
      var (s1, c1) := AppFeed(s, FreshReader(s), pre, clocks[..|pre|]).value;
      AppFeedConcat(s, FreshReader(s), pre, rest[..m], clocks);
      FeedConcat(SR.Abs(h), FreshContext(log, s.mode), pre, rest[..m]);
      h' := AppFeedIff(s1, h1, past, c1, src, at1, j, k, rest, m, clocks[|pre|..]);
    }
  }
}
