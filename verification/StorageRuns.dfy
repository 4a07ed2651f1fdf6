/** Whole runs of a storage: every checkpoint schedule refines one append-only log. */
module StorageRuns {
  import opened Prelude
  import opened BinlogNames
  import opened TimestampRange
  import opened StorageModel

  datatype Op = Open(name: Name) | Write(e: Ev) | FlushNow | Discard | Close

  /** One public call, asserts aside; Err is an exception, raised before anything has changed. */
  ghost function Effect(s: State, op: Op, now: nat): Result<State> {
    match op
    case Open(name) =>
      var r := OpenBinlog(s, name, now);
      if r.Err? then Err else Ok(r.value.0)
    case Write(e) => if CanFlush(s) then Ok(WriteEvent(s, e, now)) else Err
    case FlushNow => if s.construction == Streaming && (CanFlush(s) || s.boundary == 0) then Ok(Flush(s)) else Err
    case Discard => if s.construction == Streaming && s.boundary <= |s.buffer| then Ok(DiscardIncomplete(s)) else Err
    case Close => if CanFlush(s) then Ok(CloseBinlog(s, now)) else Err
  }

  /** One public call of a build with asserts: a failed assert of open_binlog is Err as well. */
  ghost function Apply(s: State, op: Op, now: nat): Result<State> {
    var r := Effect(s, op, now);
    if r.Ok? && op.Open? && !OpenAsserts(r.value) then Err else r
  }

  ghost function HistApply(h: Hist, op: Op): Hist {
    match op
    case Open(name) => HistOpen(h, name)
    case Write(e) => HistBuffer(h, e)
    case FlushNow => HistFlush(h)
    case Discard => HistDiscard(h)
    case Close => HistClose(h)
  }

  // ----- the append-only log -----------------------------------------------------------

  /** All complete transactions of each file, flushed or not, and the unfinished one of the last file. */
  datatype Log = Log(files: seq<FileLog>, tail: seq<Ev>, open: bool)

  ghost function LogApply(log: Log, op: Op): Log {
    match op
    case Open(name) =>
      if HasFile(log.files, name) then log.(open := true)
      else Log(log.files + [FileLog(name, [])], log.tail, true)
    case Write(e) =>
      if !e.boundary then log.(tail := log.tail + [e])
      else if log.files == [] then log.(tail := [])
      else
        var k := |log.files| - 1;
        Log(log.files[..k] + [FileLog(log.files[k].name, log.files[k].evs + log.tail + [e])], [], log.open)
    case FlushNow => log
    case Discard => log.(tail := [])
    case Close => log.(tail := [], open := false)
  }

  ghost function LogRun(log: Log, ops: seq<Op>): Log {
    if ops == [] then log else LogApply(LogRun(log, ops[..|ops| - 1]), ops[|ops| - 1])
  }

  /** The log a storage stands for, whatever part of it has been flushed. */
  ghost function Abs(h: Hist): Log {
    Log(HistFlush(h).files, h.tail, h.open)
  }

  lemma FlushIsInvisible(h: Hist)
    ensures Abs(HistFlush(h)) == Abs(h)
  {
    if h.files != [] {
      var h' := HistFlush(h);
      assert h'.Last().evs + [] == h'.Last().evs;
      assert HistFlush(h').files == h'.files;
    }
  }

  ghost predicate Quiet(h: Hist) {
    (h.open ==> h.files != []) && (!h.open ==> h.ready == [] && h.tail == [])
  }

  lemma AbsOfOpen(h: Hist, name: Name)
    requires Quiet(h) && !h.open
    ensures Abs(HistOpen(h, name)) == LogApply(Abs(h), Open(name))
  {
    var h1, h2 := HistFlush(h), HistFlush(HistOpen(h, name));
    if h.files != [] {
      assert h.Last().evs + [] == h.Last().evs;
      assert h.Before() + [h.Last()] == h.files;
    }
    assert h1.files == h.files;
    if !HasFile(h.files, name) {
      var h' := HistOpen(h, name);
      assert h'.Before() == h.files;
      assert h'.Last().evs + h'.ready == [];
    }
  }

  lemma AbsOfWrite(h: Hist, e: Ev)
    requires h.open && h.files != []
    ensures Abs(HistBuffer(h, e)) == LogApply(Abs(h), Write(e))
  {
    var f := h.Last().evs;
    var log := Abs(h);
    var k := |log.files| - 1;
    assert log.files[..k] == h.Before();
    if e.boundary {
      assert f + (h.ready + h.tail + [e]) == (f + h.ready) + h.tail + [e];
    }
  }

  lemma AbsOfClose(h: Hist)
    ensures Abs(HistClose(h)) == LogApply(Abs(h), Close)
  {
    FlushIsInvisible(h);
  }

  /** One call that succeeds keeps the invariant and does to the log what LogApply does. */
  lemma StepRefines(s: State, h: Hist, op: Op, now: nat) returns (h': Hist)
    requires Inv(s, h) && Apply(s, op, now).Ok?
    requires op.Write? ==> op.e.bytes != []
    ensures h' == HistApply(h, op) || h' == HistFlush(HistApply(h, op))
    ensures h' == if op.Write? && h.files != [] && Due(s, HistApply(h, op), now) then HistFlush(HistApply(h, op))
                  else HistApply(h, op)
    ensures Inv(Apply(s, op, now).value, h')
    ensures Abs(h') == LogApply(Abs(h), op)
  {
    hide Durable, Buffered, OpenBinlog, WriteEvent, Flush, CloseBinlog, HistFlush, Abs;
    h' := HistApply(h, op);
    match op
    case Open(name) =>
      OpenKeeps(s, h, name, now);
      AbsOfOpen(h, name);
    case Write(e) =>
      OpenWhenWritable(s, h);
      WriteKeeps(s, h, e, now);
      AbsOfWrite(h, e);
      if Due(s, h', now) {
        h' := HistFlush(h');
        FlushIsInvisible(HistApply(h, op));
      }
    case FlushNow =>
      FlushOpKeeps(s, h);
      FlushIsInvisible(h);
    case Discard =>
      DiscardKeeps(s, h);
      AbsOfDiscard(h);
    case Close =>
      OpenWhenWritable(s, h);
      CloseKeeps(s, h, now);
      AbsOfClose(h);
  }

  lemma AbsOfDiscard(h: Hist)
    ensures Abs(HistDiscard(h)) == LogApply(Abs(h), Discard)
  {
  }

  lemma OpenWhenWritable(s: State, h: Hist)
    requires Inv(s, h) && CanFlush(s)
    ensures h.open && h.files != []
  {
  }

  lemma OpenKeeps(s: State, h: Hist, name: Name, now: nat)
    requires Inv(s, h) && Apply(s, Open(name), now).Ok?
    ensures !h.open && Quiet(h)
    ensures Inv(Apply(s, Open(name), now).value, HistOpen(h, name))
  {
    if h.open || (HasFile(h.files, name) && h.Last().name != name) {
      OpenOtherFails(s, h, name, now);
    } else if HasFile(h.files, name) {
      OpenExistingKeeps(s, h, now);
    } else {
      OpenNewKeeps(s, h, name, now);
    }
  }

  /** A call fails exactly when the log says so: wrong name, not open, already open, or leaked timestamps. */
  ghost predicate LogAccepts(log: Log, op: Op) {
    match op
    case Open(name) => !log.open && (HasFile(log.files, name) ==> log.files[|log.files| - 1].name == name)
    case Write(e) => log.open
    case Close => log.open
    case _ => true
  }

  /** Calls fail exactly where the log refuses them or close_binlog left timestamps behind. */
  lemma FailsIff(s: State, h: Hist, op: Op, now: nat)
    requires Inv(s, h)
    ensures Apply(s, op, now).Err? <==> !LogAccepts(Abs(h), op) || (op.Open? && !s.incTs.IsEmpty())
  {
    hide WriteEvent, Flush, CloseBinlog, OpenBinlog, OpenAsserts, RecordsOf, DiskOf, Buffered, Bytes, CheckpointBound;
    match op
    case Open(name) =>
      AbsNames(h, name);
      if h.open || (HasFile(h.files, name) && h.Last().name != name) {
        OpenOtherFails(s, h, name, now);
      } else if HasFile(h.files, name) {
        OpenExistingKeeps(s, h, now);
      } else {
        OpenNewKeeps(s, h, name, now);
      }
    case Write(e) =>
      if h.open { CanFlushFromInv(s, h); }
    case FlushNow =>
      FlushOpKeeps(s, h);
    case Discard =>
      DiscardKeeps(s, h);
    case Close =>
      if h.open { CanFlushFromInv(s, h); }
  }

  /** A storage opened for purging refuses every call of the streaming mode. */
  lemma PurgingRefuses(s: State, op: Op, now: nat)
    requires s.construction == Purging
    ensures Effect(s, op, now).Err?
  {
  }

  lemma AbsNames(h: Hist, name: Name)
    ensures HasFile(Abs(h).files, name) <==> HasFile(h.files, name)
    ensures h.files != [] ==> Abs(h).files != [] && Abs(h).files[|Abs(h).files| - 1].name == h.Last().name
  {
    if h.files != [] {
      assert forall i :: 0 <= i < |h.files| ==> Abs(h).files[i].name == h.files[i].name;
      assert |Abs(h).files| == |h.files|;
    }
  }

  // ----- runs --------------------------------------------------------------------------

  /** A run of calls with the clock readings they see. */
  ghost function Run(s: State, ops: seq<Op>, clock: seq<nat>): Result<State>
    requires |clock| == |ops|
    decreases |ops|
  {
    if ops == [] then Ok(s)
    else
      var k := |ops| - 1;
      var r := Run(s, ops[..k], clock[..k]);
      if r.Err? then Err else Apply(r.value, ops[k], clock[k])
  }

  ghost predicate RealEvents(ops: seq<Op>) {
    forall i :: 0 <= i < |ops| ==> ops[i].Write? ==> ops[i].e.bytes != []
  }

  /** The bytes a reader of the last file would see once everything complete were flushed. */
  ghost function VisibleBytes(s: State): seq<Byte>
    requires CanFlush(s)
  {
    s.backend.disk[s.backend.stream.value].bytes + s.buffer[..s.boundary]
  }

  lemma {:induction false} RunRefines(s: State, h: Hist, ops: seq<Op>, clock: seq<nat>) returns (h': Hist)
    requires |clock| == |ops| && Inv(s, h) && RealEvents(ops) && Run(s, ops, clock).Ok?
    ensures Inv(Run(s, ops, clock).value, h')
    ensures Abs(h') == LogRun(Abs(h), ops)
    ensures h'.base == h.base
    decreases |ops|
  {
    hide Inv, Apply, Abs, LogApply, HistFlush, HistApply;
    if ops == [] {
      h' := h;
    } else {
      var k := |ops| - 1;
      assert forall i :: 0 <= i < k ==> ops[..k][i] == ops[i];
      var h1 := RunRefines(s, h, ops[..k], clock[..k]);
      h' := StepRefines(Run(s, ops[..k], clock[..k]).value, h1, ops[k], clock[k]);
      BaseKept(h1, ops[k]);
    }
  }

  lemma BaseKept(h: Hist, op: Op)
    ensures HistApply(h, op).base == h.base && HistFlush(HistApply(h, op)).base == h.base
  {
  }

  /**
   * Checkpointing is invisible.  After any successful run the stream contents and the complete part
   * of the buffer are the magic bytes and all complete transactions of the last file; the rest of
   * the buffer is the unfinished transaction.  The right-hand sides mention neither the checkpoint
   * settings nor the clock.
   */
  lemma CheckpointingIsInvisible(s: State, h: Hist, ops: seq<Op>, clock: seq<nat>)
    requires |clock| == |ops| && Inv(s, h) && RealEvents(ops) && Run(s, ops, clock).Ok?
    ensures var s', log := Run(s, ops, clock).value, LogRun(Abs(h), ops);
      log.open ==>
        && CanFlush(s') && log.files != []
        && VisibleBytes(s') == MAGIC + Bytes(log.files[|log.files| - 1].evs)
        && s'.buffer[s'.boundary..] == Bytes(log.tail)
        && s'.CurrentPosition() == MAGIC_OFFSET + |Bytes(log.files[|log.files| - 1].evs)| + |Bytes(log.tail)|
        && (s'.ckptSize != 0 ==> s'.boundary < s'.ckptSize)
  {
    hide Run, LogRun, Durable, Buffered;
    var h' := RunRefines(s, h, ops, clock);
    if h'.open {
      LogSeen(Run(s, ops, clock).value, h');
    }
  }

  lemma LogSeen(s: State, h: Hist)
    requires Inv(s, h) && h.open
    ensures CanFlush(s) && Abs(h).files != []
    ensures VisibleBytes(s) == MAGIC + Bytes(Abs(h).files[|Abs(h).files| - 1].evs)
    ensures s.buffer[s.boundary..] == Bytes(Abs(h).tail)
    ensures s.CurrentPosition() == MAGIC_OFFSET + |Bytes(Abs(h).files[|Abs(h).files| - 1].evs)| + |Bytes(Abs(h).tail)|
  {
    hide Durable, Buffered, Bytes, Abs;
    CanFlushFromInv(s, h);
    StreamHolds(s, h);
    BufferHolds(s, h);
    AbsLast(h);
    BytesConcat(h.Last().evs, h.ready);
    assert MAGIC + Bytes(h.Last().evs) + Bytes(h.ready) == MAGIC + (Bytes(h.Last().evs) + Bytes(h.ready));
  }

  lemma AbsLast(h: Hist)
    requires h.files != []
    ensures Abs(h).files != [] && Abs(h).files[|Abs(h).files| - 1].evs == h.Last().evs + h.ready
    ensures Abs(h).tail == h.tail
  {
  }

  lemma StreamHolds(s: State, h: Hist)
    requires Inv(s, h) && h.open
    ensures s.backend.stream.Some? && s.backend.stream.value in s.backend.disk
    ensures h.files != [] && s.backend.disk[s.backend.stream.value] == Payload(MAGIC + Bytes(h.Last().evs))
    ensures s.FlushedPosition() == MAGIC_OFFSET + |Bytes(h.Last().evs)|
  {
    hide Bytes, Buffered;
  }

  lemma BufferHolds(s: State, h: Hist)
    requires Inv(s, h)
    ensures s.boundary <= |s.buffer| && s.buffer[..s.boundary] == Bytes(h.ready)
    ensures s.buffer[s.boundary..] == Bytes(h.tail)
    ensures |s.buffer| == |Bytes(h.ready)| + |Bytes(h.tail)|
  {
    hide Bytes, Durable;
  }

  /**
   * Metadata exactness: in every state a run can reach, the stored bounds of every file are the true
   * minimum and maximum of the non-zero timestamps flushed to it, its sequence number is the last
   * non-zero one flushed, and its added set is exactly the GTIDs of the transactions flushed to it.
   */
  lemma MetadataIsExact(s: State, h: Hist, i: nat)
    requires Inv(s, h) && i < |h.files|
    ensures i < |s.records|
    ensures Exact(s.records[i].ts, Stamps(h.files[i].evs))
    ensures s.records[i].lastSeq == LastSeq(h.files[i].evs)
    ensures s.records[i].size == MAGIC_OFFSET + |Bytes(h.files[i].evs)|
    ensures s.mode == GtidBased ==> s.records[i].added == Some(Gtids(h.files[i].evs))
    ensures s.mode == GtidBased ==> s.records[i].previous == Some(AllGtids(h.base, h.files[..i]))
  {
    RecordAt(s.mode, h.base, h.files, i);
    RangeOfIsExact(Stamps(h.files[i].evs));
  }

  /** Each previous set is its predecessor's previous and added sets together. */
  lemma GtidChain(s: State, h: Hist, i: nat)
    requires Inv(s, h) && s.mode == GtidBased && 0 < i < |h.files|
    ensures i < |s.records| && s.records[i].previous.Some?
    ensures s.records[i - 1].previous.Some? && s.records[i - 1].added.Some?
    ensures s.records[i].previous.value == s.records[i - 1].previous.value + s.records[i - 1].added.value
  {
    MetadataIsExact(s, h, i);
    MetadataIsExact(s, h, i - 1);
    assert h.files[..i][..i - 1] == h.files[..i - 1];
  }

  // ----- the timestamps close_binlog leaves behind -------------------------------------

  lemma ClosedNames(h: Hist, name: Name)
    ensures HasFile(HistClose(h).files, name) <==> HasFile(h.files, name)
  {
    AbsNames(h, name);
  }

  /** After closing, the next open_binlog of a new file passes its asserts iff all dropped timestamps are zero. */
  lemma OpenAfterCloseIff(s: State, h: Hist, name: Name, t1: nat, t2: nat)
    requires Inv(s, h) && h.open && !HasFile(h.files, name)
    ensures CanFlush(s)
    ensures Apply(CloseBinlog(s, t1), Open(name), t2).Ok? <==> forall i :: 0 <= i < |h.tail| ==> h.tail[i].ts == 0
  {
    CloseKeeps(s, h, t1);
    hide Durable, Buffered, CloseBinlog, OpenBinlog, OpenAsserts;
    StampsEmptyIff(h.tail);
    var s1, h1 := CloseBinlog(s, t1), HistClose(h);
    ClosedNames(h, name);
    OpenNewKeeps(s1, h1, name, t2);
  }

  /**
   * With asserts compiled out, the first transaction of the next file is stored with the dropped
   * timestamps mixed in; its bounds are exact iff every dropped non-zero timestamp is its own.
   */
  lemma LeakedTimestamps(s: State, h: Hist, name: Name, e: Ev, t1: nat, t2: nat)
    requires Inv(s, h) && h.open && !HasFile(h.files, name) && e.boundary && e.bytes != [] && e.ts != 0
    ensures CanFlush(s) && OpenBinlog(CloseBinlog(s, t1), name, t2).Ok?
    ensures
      var s2 := BufferEvent(OpenBinlog(CloseBinlog(s, t1), name, t2).value.0, e);
      && CanFlush(s2)
      && FlushInternal(s2).Current().ts == AddTimestamp(RangeOf(Stamps(h.tail)), e.ts)
      && (Exact(FlushInternal(s2).Current().ts, [e.ts])
          <==> forall i :: 0 <= i < |h.tail| ==> h.tail[i].ts == 0 || h.tail[i].ts == e.ts)
  {
    hide Durable, Buffered, CloseBinlog, OpenBinlog, BufferEvent, FlushInternal, Exact;
    CloseKeeps(s, h, t1);
    var s1, h1 := CloseBinlog(s, t1), HistClose(h);
    ClosedNames(h, name);
    OpenNewKeeps(s1, h1, name, t2);
    LeakAfterOpen(s1, h1, name, e, t2);
    ExactOfLeak(h.tail, e.ts);
  }

  lemma LeakAfterOpen(s: State, h: Hist, name: Name, e: Ev, t: nat)
    requires Inv(s, h) && !h.open && !HasFile(h.files, name) && e.boundary && e.ts != 0
    requires OpenBinlog(s, name, t).Ok?
    ensures
      var s2 := BufferEvent(OpenBinlog(s, name, t).value.0, e);
      CanFlush(s2) && FlushInternal(s2).Current().ts == AddTimestamp(s.incTs, e.ts)
  {
    KnownNames(s, h, name);
    assert s.readyTs == EMPTY by {
      assert Stamps(h.ready) == [];
    }
  }

  lemma ExactOfLeak(tail: seq<Ev>, t: int)
    requires t != 0
    ensures Exact(AddTimestamp(RangeOf(Stamps(tail)), t), [t])
       <==> forall i :: 0 <= i < |tail| ==> tail[i].ts == 0 || tail[i].ts == t
  {
    var ts := Stamps(tail);
    var r := RangeOf(ts);
    RangeOfIsExact(ts);
    assert forall i :: 0 <= i < |tail| ==> ts[i] == tail[i].ts;
    assert [t][0] == t;
    assert Exact(Range(t, t), [t]);
    if Exact(AddTimestamp(r, t), [t]) {
      ExactIsUnique(AddTimestamp(r, t), Range(t, t), [t]);
    }
  }
}
