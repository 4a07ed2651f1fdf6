/**
 * When write_event reaches the disk: complete transactions are not kept in memory longer than the checkpoint interval,
 * and checkpoints are the checkpoint size or the checkpoint interval apart.
 */
module Checkpoints {
  import opened BinlogNames
  import opened StorageModel
  import opened StorageRuns

  /** The readings of a steady clock. */
  ghost predicate Steady(clock: seq<nat>) {
    forall i, j :: 0 <= i <= j < |clock| ==> clock[i] <= clock[j]
  }

  /** These files hold at least those events. */
  ghost predicate HoldsAll(files: seq<FileLog>, wanted: seq<FileLog>) {
    && |wanted| <= |files|
    && forall i :: 0 <= i < |wanted| ==> files[i].name == wanted[i].name && wanted[i].evs <= files[i].evs
  }

  ghost function StateAt(s: State, ops: seq<Op>, clock: seq<nat>, n: nat): State
    requires n <= |ops| == |clock|
  {
    var r := Run(s, ops[..n], clock[..n]);
    if r.Ok? then r.value else s
  }

  // ----- one call ----------------------------------------------------------------------

  lemma EffectSettings(s: State, op: Op, now: nat)
    requires Apply(s, op, now).Ok?
    ensures var s' := Apply(s, op, now).value;
      s'.ckptSize == s.ckptSize && s'.ckptInterval == s.ckptInterval && s'.mode == s.mode
  {
  }

  /** Apart from writes, opening and closing restart the interval and leave nothing complete in the buffer. */
  lemma OtherTimes(s: State, h: Hist, op: Op, now: nat)
    requires Inv(s, h) && Apply(s, op, now).Ok? && !op.Write?
    ensures var (s', h') := (Apply(s, op, now).value, HistApply(h, op));
      s'.lastCkptTime == s.lastCkptTime || (s'.lastCkptTime == now && h'.ready == [])
  {
    hide DiskOf, RecordsOf, Bytes, Gtids;
    if op.Open? {
      OpenKeeps(s, h, op.name, now);
    } else if op.Close? {
      OpenWhenWritable(s, h);
    }
  }

  /** The interval restarts only when nothing complete stays in the buffer; a write after it leaves nothing. */
  lemma StepTimes(s: State, h: Hist, op: Op, now: nat) returns (h': Hist)
    requires Inv(s, h) && Apply(s, op, now).Ok? && (op.Write? ==> op.e.bytes != [])
    ensures var s' := Apply(s, op, now).value;
      && Inv(s', h') && Abs(h') == LogApply(Abs(h), op) && s'.ckptInterval == s.ckptInterval
      && (s'.lastCkptTime == s.lastCkptTime || (s'.lastCkptTime == now && h'.ready == []))
      && (op.Write? && s.ckptInterval > 0 && now >= s.lastCkptTime + s.ckptInterval ==> h'.ready == [])
    ensures HoldsAll(h'.files, h.files)
  {
    hide Durable, Buffered, WriteEvent, OpenBinlog, CloseBinlog, Flush, Abs, LogApply, Bytes;
    h' := StepRefines(s, h, op, now);
    EffectSettings(s, op, now);
    FilesGrow(h, op);
    if op.Write? {
      OpenWhenWritable(s, h);
      WriteKeeps(s, h, op.e, now);
    } else {
      OtherTimes(s, h, op, now);
    }
  }

  lemma FilesGrow(h: Hist, op: Op)
    ensures HoldsAll(HistApply(h, op).files, h.files) && HoldsAll(HistFlush(HistApply(h, op)).files, h.files)
  {
    hide HoldsAll, HistFlush;
    var h1 := HistApply(h, op);
    FlushGrows(h);
    FlushGrows(h1);
    HoldsItself(h.files);
    if op.Open? { OpenGrows(h, op.name); }
    HoldsMore(HistFlush(h1).files, h1.files, h.files);
  }

  lemma FlushGrows(h: Hist)
    ensures HoldsAll(HistFlush(h).files, h.files)
  {
  }

  lemma OpenGrows(h: Hist, name: Name)
    ensures HoldsAll(HistOpen(h, name).files, h.files)
  {
  }

  lemma LogGrows(log: Log, op: Op)
    ensures HoldsAll(LogApply(log, op).files, log.files)
  {
  }

  lemma HoldsMore(a: seq<FileLog>, b: seq<FileLog>, c: seq<FileLog>)
    requires HoldsAll(a, b) && HoldsAll(b, c)
    ensures HoldsAll(a, c)
  {
  }

  lemma AllOnDisk(h: Hist)
    requires h.ready == []
    ensures HoldsAll(h.files, Abs(h).files)
  {
    if h.files != [] { assert h.Last().evs + [] == h.Last().evs; }
  }

  // ----- runs --------------------------------------------------------------------------

  lemma {:induction false} RunGrows(log: Log, ops: seq<Op>, j: nat)
    requires j <= |ops|
    ensures HoldsAll(LogRun(log, ops).files, LogRun(log, ops[..j]).files)
    decreases |ops|
  {
    hide LogApply, HoldsAll;
    if j == |ops| {
      assert ops[..j] == ops;
      HoldsItself(LogRun(log, ops).files);
    } else {
      var n := |ops| - 1;
      assert ops[..n][..j] == ops[..j];
      RunGrows(log, ops[..n], j);
      LogGrows(LogRun(log, ops[..n]), ops[n]);
      HoldsMore(LogRun(log, ops).files, LogRun(log, ops[..n]).files, LogRun(log, ops[..j]).files);
    }
  }

  lemma HoldsItself(files: seq<FileLog>)
    ensures HoldsAll(files, files)
  {
  }

  /** What was complete at call j is on disk, or the interval running now began no later than that. */
  ghost predicate KeptInTime(s: State, h: Hist, wanted: seq<FileLog>, time: nat) {
    HoldsAll(h.files, wanted) || s.lastCkptTime <= time
  }

  lemma {:induction false} RunTimes(s: State, h: Hist, ops: seq<Op>, clock: seq<nat>, j: nat) returns (h': Hist)
    requires j < |ops| == |clock| && Inv(s, h) && RealEvents(ops) && Run(s, ops, clock).Ok? && Steady(clock)
    requires s.lastCkptTime <= clock[0]
    ensures var s' := Run(s, ops, clock).value;
      && Inv(s', h') && Abs(h') == LogRun(Abs(h), ops)
      && s'.ckptInterval == s.ckptInterval && s'.lastCkptTime <= clock[|ops| - 1]
      && KeptInTime(s', h', LogRun(Abs(h), ops[..j + 1]).files, clock[j])
    decreases |ops|
  {
    hide Inv, Apply, Abs, LogApply, HoldsAll;
    var n := |ops| - 1;
    var (ops0, clock0) := (ops[..n], clock[..n]);
    assert forall i :: 0 <= i < n ==> ops0[i] == ops[i] && clock0[i] == clock[i];
    var h1 := h;
    if n > 0 {
      h1 := RunTimes(s, h, ops0, clock0, if j < n then j else 0);
      assert j < n ==> ops0[..j + 1] == ops[..j + 1];
    } else {
      assert ops0 == [];
    }
    var s1 := Run(s, ops0, clock0).value;
    h' := StepTimes(s1, h1, ops[n], clock[n]);
    if j < n {
      var wanted := LogRun(Abs(h), ops[..j + 1]).files;
      RunGrows(Abs(h), ops, j + 1);
      if HoldsAll(h1.files, wanted) {
        HoldsMore(h'.files, h1.files, wanted);
      } else if h'.ready == [] {
        AllOnDisk(h');
        HoldsMore(h'.files, Abs(h').files, wanted);
      }
    }
  }

  /**
   * A transaction that is complete at some time is on disk after any write at least the checkpoint interval later,
   * whatever calls there are in between.
   */
  lemma FlushedInTime(s: State, h: Hist, ops: seq<Op>, clock: seq<nat>, j: nat) returns (h': Hist)
    requires j < |ops| == |clock| && Inv(s, h) && RealEvents(ops) && Run(s, ops, clock).Ok? && Steady(clock)
    requires s.lastCkptTime <= clock[0] && s.ckptInterval > 0
    requires ops[|ops| - 1].Write? && clock[|ops| - 1] >= clock[j] + s.ckptInterval
    ensures Inv(Run(s, ops, clock).value, h') && Abs(h') == LogRun(Abs(h), ops)
    ensures HoldsAll(h'.files, LogRun(Abs(h), ops[..j + 1]).files)
  {
    hide Inv, Apply, Abs, LogApply, HoldsAll;
    var n := |ops| - 1;
    var (ops0, clock0) := (ops[..n], clock[..n]);
    assert forall i :: 0 <= i < n ==> ops0[i] == ops[i] && clock0[i] == clock[i];
    assert ops0[..j + 1] == ops[..j + 1];
    var h1 := RunTimes(s, h, ops0, clock0, j);
    h' := StepTimes(Run(s, ops0, clock0).value, h1, ops[n], clock[n]);
    var wanted := LogRun(Abs(h), ops[..j + 1]).files;
    RunGrows(Abs(h), ops, j + 1);
    if HoldsAll(h1.files, wanted) {
      HoldsMore(h'.files, h1.files, wanted);
    } else {
      AllOnDisk(h');
      HoldsMore(h'.files, Abs(h').files, wanted);
    }
  }

  // ----- not too often -----------------------------------------------------------------

  /** A write at which the disk changes. */
  ghost predicate Checkpointed(s: State, ops: seq<Op>, clock: seq<nat>, i: nat)
    requires i < |ops| == |clock|
  {
    ops[i].Write? && StateAt(s, ops, clock, i + 1).backend != StateAt(s, ops, clock, i).backend
  }

  /** The file stays open. */
  ghost predicate NoneBetween(ops: seq<Op>, i: nat, k: nat)
    requires k <= |ops|
  {
    forall m :: i < m < k ==> !ops[m].Open? && !ops[m].Close?
  }

  /** The checkpoint running now began no earlier than at this position and time. */
  ghost predicate BegunSince(s: State, pos: nat, time: nat) {
    && (s.ckptSize > 0 ==> s.lastCkptPos >= pos && s.FlushedPosition() >= pos)
    && (s.ckptInterval > 0 ==> s.lastCkptTime >= time)
  }

  lemma OpenBegins(s: State, h: Hist, name: Name, now: nat)
    requires Inv(s, h) && Apply(s, Open(name), now).Ok?
    ensures var s' := Apply(s, Open(name), now).value; BegunSince(s', s'.FlushedPosition(), now)
  {
    hide DiskOf, RecordsOf, Bytes, Gtids, OpenNew, OpenExisting;
  }

  lemma WriteBegins(s: State, h: Hist, e: Ev, now: nat)
    requires Inv(s, h) && Apply(s, Write(e), now).Ok? && e.bytes != []
    requires Apply(s, Write(e), now).value.backend != s.backend
    ensures var s' := Apply(s, Write(e), now).value;
      && BegunSince(s', s'.FlushedPosition(), now)
      && (|| (s.ckptSize > 0 && s'.FlushedPosition() >= s.lastCkptPos + s.ckptSize)
          || (s.ckptInterval > 0 && now >= s.lastCkptTime + s.ckptInterval))
  {
    hide Durable, Buffered, WriteEvent, Bytes;
    OpenWhenWritable(s, h);
    WriteKeeps(s, h, e, now);
    var h1 := HistBuffer(h, e);
    StreamHolds(WriteEvent(s, e, now), HistFlush(h1));
    assert HistFlush(h1).Last().evs == h1.Last().evs + h1.ready;
  }

  lemma StillSince(s: State, h: Hist, op: Op, now: nat, pos: nat, time: nat)
    requires Inv(s, h) && Apply(s, op, now).Ok? && (op.Write? ==> op.e.bytes != []) && !op.Open? && !op.Close?
    requires BegunSince(s, pos, time) && time <= now
    ensures BegunSince(Apply(s, op, now).value, pos, time)
  {
    hide Durable, Buffered, WriteEvent, Bytes;
    EffectSettings(s, op, now);
    if op.Write? {
      OpenWhenWritable(s, h);
      WriteKeeps(s, h, op.e, now);
      WriteGrows(s, op.e, now);
    }
  }

  lemma WriteGrows(s: State, e: Ev, now: nat)
    requires CanFlush(s)
    ensures WriteEvent(s, e, now).FlushedPosition() >= s.FlushedPosition()
  {
  }

  lemma LastCall(s: State, ops: seq<Op>, clock: seq<nat>)
    requires ops != [] && |ops| == |clock| && Run(s, ops, clock).Ok? && Steady(clock) && RealEvents(ops)
    ensures var n := |ops| - 1;
      && Run(s, ops[..n], clock[..n]).Ok?
      && Run(s, ops, clock) == Apply(Run(s, ops[..n], clock[..n]).value, ops[n], clock[n])
      && StateAt(s, ops, clock, n + 1) == Run(s, ops, clock).value
      && StateAt(s, ops, clock, n) == Run(s, ops[..n], clock[..n]).value
      && Steady(clock[..n]) && RealEvents(ops[..n]) && (ops[n].Write? ==> ops[n].e.bytes != [])
  {
    hide Apply;
    var n := |ops| - 1;
    assert ops[..n + 1] == ops && clock[..n + 1] == clock;
  }

  lemma SameBefore(s: State, ops: seq<Op>, clock: seq<nat>, i: nat)
    requires |ops| == |clock| && i < |ops| - 1
    ensures var n := |ops| - 1;
      && StateAt(s, ops[..n], clock[..n], i + 1) == StateAt(s, ops, clock, i + 1)
      && (Checkpointed(s, ops[..n], clock[..n], i) <==> Checkpointed(s, ops, clock, i))
      && (NoneBetween(ops, i, |ops|) ==> NoneBetween(ops[..n], i, n))
  {
    hide Run;
    var n := |ops| - 1;
    assert ops[..n][..i + 1] == ops[..i + 1] && clock[..n][..i + 1] == clock[..i + 1];
    assert ops[..n][..i] == ops[..i] && clock[..n][..i] == clock[..i];
  }

  lemma {:induction false} SinceThen(s: State, h: Hist, ops: seq<Op>, clock: seq<nat>, i: nat) returns (h': Hist)
    requires i < |ops| == |clock| && Inv(s, h) && RealEvents(ops) && Run(s, ops, clock).Ok? && Steady(clock)
    requires ops[i].Open? || Checkpointed(s, ops, clock, i)
    requires NoneBetween(ops, i, |ops|)
    ensures var s' := Run(s, ops, clock).value;
      && Inv(s', h') && s'.ckptSize == s.ckptSize && s'.ckptInterval == s.ckptInterval
      && BegunSince(s', StateAt(s, ops, clock, i + 1).FlushedPosition(), clock[i])
    decreases |ops|
  {
    hide Inv, Apply, BegunSince, Run, RealEvents;
    var n := |ops| - 1;
    var (ops0, clock0) := (ops[..n], clock[..n]);
    LastCall(s, ops, clock);
    var h1 := RunRefines(s, h, ops0, clock0);
    SettingsKept(s, ops, clock);
    SettingsKept(s, ops0, clock0);
    var s1 := Run(s, ops0, clock0).value;
    h' := StepRefines(s1, h1, ops[n], clock[n]);
    if i == n {
      if ops[i].Open? { OpenBegins(s1, h1, ops[i].name, clock[i]); } else { WriteBegins(s1, h1, ops[i].e, clock[i]); }
    } else {
      SameBefore(s, ops, clock, i);
      h1 := SinceThen(s, h, ops0, clock0, i);
      StillSince(s1, h1, ops[n], clock[n], StateAt(s, ops, clock, i + 1).FlushedPosition(), clock[i]);
    }
  }

  lemma {:induction false} SettingsKept(s: State, ops: seq<Op>, clock: seq<nat>)
    requires |ops| == |clock| && Run(s, ops, clock).Ok?
    ensures var s' := Run(s, ops, clock).value; s'.ckptSize == s.ckptSize && s'.ckptInterval == s.ckptInterval
    decreases |ops|
  {
    hide Apply;
    if ops != [] {
      var n := |ops| - 1;
      SettingsKept(s, ops[..n], clock[..n]);
      EffectSettings(Run(s, ops[..n], clock[..n]).value, ops[n], clock[n]);
    }
  }

  /**
   * A checkpoint comes only when the complete data of the file have grown by the checkpoint size or the checkpoint
   * interval has passed, both counted from any earlier checkpoint of the file and from its opening.
   */
  lemma CheckpointsApart(s: State, h: Hist, ops: seq<Op>, clock: seq<nat>, i: nat)
    requires |ops| == |clock| && Inv(s, h) && RealEvents(ops) && Run(s, ops, clock).Ok? && Steady(clock)
    requires i < |ops| - 1 && (ops[i].Open? || Checkpointed(s, ops, clock, i))
    requires Checkpointed(s, ops, clock, |ops| - 1) && NoneBetween(ops, i, |ops|)
    ensures var (s1, s') := (StateAt(s, ops, clock, i + 1), Run(s, ops, clock).value);
      || (s.ckptSize > 0 && s'.FlushedPosition() >= s1.FlushedPosition() + s.ckptSize)
      || (s.ckptInterval > 0 && clock[|ops| - 1] >= clock[i] + s.ckptInterval)
  {
    hide Inv, Apply, Run, Steady, RealEvents, NoneBetween;
    var n := |ops| - 1;
    var (ops0, clock0) := (ops[..n], clock[..n]);
    LastCall(s, ops, clock);
    SameBefore(s, ops, clock, i);
    var h1 := SinceThen(s, h, ops0, clock0, i);
    WriteBegins(Run(s, ops0, clock0).value, h1, ops[n].e, clock[n]);
  }
}
