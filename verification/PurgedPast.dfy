/** A purge takes the oldest files away; the event loop, which looks at the last file only, does not notice. */
module PurgedPast {
  import opened Prelude
  import opened BinlogNames
  import opened ReaderContext
  import opened Streaming
  import SM = StorageModel
  import SR = StorageRuns

  /** The log as it were had its past not been purged. */
  ghost function Unpurged(past: seq<FileLog>, log: Log): Log {
    log.(files := past + log.files)
  }

  /** A purge leaves at least one file. */
  ghost predicate Covers(past: seq<FileLog>, log: Log) {
    past == [] || log.files != []
  }

  lemma NothingPurged(log: Log)
    ensures Unpurged([], log) == log
  {
    assert [] + log.files == log.files;
  }

  lemma SeeUnpurged(past: seq<FileLog>, log: Log)
    requires Covers(past, log)
    ensures See(Unpurged(past, log)) == See(log)
  {
    if log.files != [] {
      assert LastFile(Unpurged(past, log)) == LastFile(log);
    } else {
      NothingPurged(log);
    }
  }

  lemma FileUnpurged(past: seq<FileLog>, log: Log, name: Name)
    requires Covers(past, log)
    ensures SM.HasFile(log.files, name) ==> SM.HasFile(past + log.files, name)
    ensures SM.HasFile(past + log.files, name) && CurrentName(Unpurged(past, log)) == Some(name) ==>
      SM.HasFile(log.files, name)
  {
    if SM.HasFile(log.files, name) {
      var i :| 0 <= i < |log.files| && log.files[i].name == name;
      assert (past + log.files)[|past| + i].name == name;
    }
    if log.files != [] {
      assert LastFile(Unpurged(past, log)) == LastFile(log);
    } else {
      NothingPurged(log);
    }
  }

  lemma WriteUnpurged(past: seq<FileLog>, log: Log, e: Ev)
    requires Covers(past, log)
    ensures SR.LogApply(Unpurged(past, log), SR.Write(e)) == Unpurged(past, SR.LogApply(log, SR.Write(e)))
  {
    if log.files != [] {
      var all, k, n := past + log.files, |log.files| - 1, |past| + |log.files| - 1;
      assert all[..n] == past + log.files[..k] && all[n] == log.files[k];
      var f := SM.FileLog(log.files[k].name, log.files[k].evs + log.tail + [e]);
      assert past + log.files[..k] + [f] == past + (log.files[..k] + [f]);
    } else {
      NothingPurged(log);
      NothingPurged(SR.LogApply(log, SR.Write(e)));
    }
  }

  lemma CallUnpurged(past: seq<FileLog>, log: Log, op: SR.Op)
    requires Covers(past, log) && SR.LogAccepts(Unpurged(past, log), op)
    ensures SR.LogAccepts(log, op) && Covers(past, SR.LogApply(log, op))
    ensures SR.LogApply(Unpurged(past, log), op) == Unpurged(past, SR.LogApply(log, op))
  {
    match op
    case Open(name) =>
      FileUnpurged(past, log, name);
      assert past + (log.files + [SM.FileLog(name, [])]) == past + log.files + [SM.FileLog(name, [])];
    case Write(e) => WriteUnpurged(past, log, e);
    case _ =>
  }

  lemma {:induction false} CallsUnpurged(past: seq<FileLog>, log: Log, ops: seq<SR.Op>)
    requires Covers(past, log) && Accepted(Unpurged(past, log), ops)
    ensures Accepted(log, ops) && Covers(past, SR.LogRun(log, ops))
    ensures SR.LogRun(Unpurged(past, log), ops) == Unpurged(past, SR.LogRun(log, ops))
    decreases |ops|
  {
    hide Unpurged, SR.LogAccepts, SR.LogApply, Covers;
    if ops != [] {
      var n := |ops| - 1;
      var full := Unpurged(past, log);
      AcceptedSnoc(full, ops);
      CallsUnpurged(past, log, ops[..n]);
      CallUnpurged(past, SR.LogRun(log, ops[..n]), ops[n]);
      AcceptedSnoc(log, ops);
    }
  }

  lemma AcceptedSnoc(log: Log, ops: seq<SR.Op>)
    requires ops != []
    ensures var n := |ops| - 1;
      Accepted(log, ops) <==> Accepted(log, ops[..n]) && SR.LogAccepts(SR.LogRun(log, ops[..n]), ops[n])
  {
    var n := |ops| - 1;
    assert forall i :: 0 <= i < n ==> ops[..n][..i] == ops[..i];
    if Accepted(log, ops[..n]) && SR.LogAccepts(SR.LogRun(log, ops[..n]), ops[n]) {
      forall i | 0 <= i < |ops| ensures SR.LogAccepts(SR.LogRun(log, ops[..i]), ops[i]) {
        if i < n { assert SR.LogAccepts(SR.LogRun(log, ops[..n][..i]), ops[..n][i]); }
      }
    }
    if Accepted(log, ops) {
      assert SR.LogAccepts(SR.LogRun(log, ops[..n]), ops[n]);
    }
  }

  /** An event accepted by the unpurged log is accepted without the past, and has the same effect. */
  lemma EventUnpurged(past: seq<FileLog>, log: Log, c: Ctx, e: Event)
    requires Covers(past, log) && ProcessEvent(Unpurged(past, log), c, e).Ok?
    ensures ProcessEvent(log, c, e).Ok?
    ensures var (log', c') := ProcessEvent(log, c, e).value;
      Covers(past, log') && ProcessEvent(Unpurged(past, log), c, e) == Ok((Unpurged(past, log'), c'))
  {
    hide Process, SR.LogRun, Accepted, Unpurged, Covers;
    SeeUnpurged(past, log);
    var r := Process(c, e).value;
    CallsUnpurged(past, log, OpsFor(See(log), r.0, r.1, e).value);
  }

  lemma {:induction false} FeedUnpurged(past: seq<FileLog>, log: Log, c: Ctx, events: seq<Event>)
    requires Covers(past, log) && Feed(Unpurged(past, log), c, events).Ok?
    ensures Feed(log, c, events).Ok?
    ensures var (log', c') := Feed(log, c, events).value;
      Covers(past, log') && Feed(Unpurged(past, log), c, events) == Ok((Unpurged(past, log'), c'))
    decreases |events|
  {
    hide ProcessEvent, Unpurged, Covers;
    if events != [] {
      EventUnpurged(past, log, c, events[0]);
      var (log1, c1) := ProcessEvent(log, c, events[0]).value;
      FeedUnpurged(past, log1, c1, events[1..]);
    }
  }
}
