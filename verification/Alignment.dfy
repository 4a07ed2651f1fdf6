/**
 * Where the store stands in the source: every stored file is a transaction-aligned prefix of a
 * source file and nothing in between is missing.  Each event of a connection keeps it so.
 */
module Alignment {
  import opened Prelude
  import opened BinlogNames
  import opened ReaderContext
  import opened Streaming
  import SM = StorageModel
  import SR = StorageRuns

  // ----- a position in the source ------------------------------------------------------

  /** What may be missing at the end of a file the server has moved on from. */
  ghost predicate Dropped(mode: ReplicationMode, evs: seq<Ev>) {
    if mode == Position then SM.NoBoundary(evs) else SM.Gtids(evs) == {}
  }

  /** Files between two stored ones: none, or in GTID mode ones without transactions. */
  ghost predicate AllGaps(mode: ReplicationMode, src: seq<SrcFile>, a: nat, b: nat) {
    if mode == Position then a == b
    else a <= b <= |src| && forall x :: a <= x < b ==> SM.Gtids(Copy(mode, src[x].events)) == {}
  }

  ghost predicate HoldsPrefix(mode: ReplicationMode, f: FileLog, g: SrcFile) {
    f.name == g.name && SM.Complete(f.evs) && f.evs <= Copy(mode, g.events)
  }

  /** Everything the source has before file j is in the stored files. */
  ghost predicate TakenUpTo(mode: ReplicationMode, files: seq<FileLog>, src: seq<SrcFile>, at: seq<nat>, j: nat)
    requires |at| == |files|
  {
    if files == [] then AllGaps(mode, src, 0, j)
    else
      var n := |files| - 1;
      && at[n] < j && at[n] < |src|
      && |files[n].evs| <= |src[at[n]].events|
      && Dropped(mode, Copy(mode, src[at[n]].events)[|files[n].evs|..])
      && AllGaps(mode, src, at[n] + 1, j)
  }

  /** Stored file i holds a prefix of source file at[i] that ends with a transaction, and nothing else is missing. */
  ghost predicate Aligned(mode: ReplicationMode, files: seq<FileLog>, src: seq<SrcFile>, at: seq<nat>)
    decreases |files|
  {
    && |at| == |files|
    && (files != [] ==>
          var n := |files| - 1;
          && at[n] < |src|
          && HoldsPrefix(mode, files[n], src[at[n]])
          && TakenUpTo(mode, files[..n], src, at[..n], at[n])
          && Aligned(mode, files[..n], src, at[..n]))
  }

  /** In the middle of a connection: the reader is k events into source file j. */
  ghost predicate Standing(log: Log, c: Ctx, src: seq<SrcFile>, at: seq<nat>, j: nat, k: nat) {
    && j < |src| && Aligned(c.mode, log.files, src, at)
    && log.files != [] && at[|at| - 1] == j
    && (Conn(log, c, src[j], k) || (k == |src[j].events| && Closed(log, c, src[j])))
  }

  /** What the server still has to send from there. */
  ghost function Remaining(src: seq<SrcFile>, j: nat, k: nat): seq<Event>
    requires j < |src| && k <= |src[j].events|
  {
    src[j].events[k..] + Rest(src, j + 1)
  }

  // ----- one event ---------------------------------------------------------------------

  lemma {:induction false} TakenNames(mode: ReplicationMode, files: seq<FileLog>, src: seq<SrcFile>, at: seq<nat>,
                                      name: Name)
    requires Aligned(mode, files, src, at) && SM.HasFile(files, name)
    ensures exists j :: 0 <= j <= at[|at| - 1] < |src| && src[j].name == name
    decreases |files|
  {
    hide HoldsPrefix, AllGaps, Dropped;
    var n := |files| - 1;
    if files[n].name == name {
      assert HoldsPrefix(mode, files[n], src[at[n]]);
      PrefixName(mode, files[n], src[at[n]]);
    } else {
      var i :| 0 <= i < |files| && files[i].name == name;
      assert files[..n][i].name == name;
      TakenNames(mode, files[..n], src, at[..n], name);
    }
  }

  lemma PrefixName(mode: ReplicationMode, f: FileLog, g: SrcFile)
    requires HoldsPrefix(mode, f, g)
    ensures f.name == g.name
  {
  }

  lemma NewName(mode: ReplicationMode, files: seq<FileLog>, src: seq<SrcFile>, at: seq<nat>, j: nat)
    requires Aligned(mode, files, src, at) && GoodSource(mode, src) && j < |src|
    requires files == [] || at[|at| - 1] < j
    ensures !SM.HasFile(files, src[j].name)
  {
    hide Aligned, GoodFile;
    if SM.HasFile(files, src[j].name) {
      TakenNames(mode, files, src, at, src[j].name);
    }
  }

  /** The last file may be replaced by another transaction-aligned prefix of the same source file. */
  lemma ReplaceLast(mode: ReplicationMode, files: seq<FileLog>, files': seq<FileLog>, src: seq<SrcFile>, at: seq<nat>)
    requires Aligned(mode, files, src, at) && files != [] && |files'| == |files|
    requires var n := |files| - 1; files'[..n] == files[..n] && HoldsPrefix(mode, files'[n], src[at[n]])
    ensures Aligned(mode, files', src, at)
  {
  }

  lemma AddLast(mode: ReplicationMode, files: seq<FileLog>, src: seq<SrcFile>, at: seq<nat>, j: nat)
    requires Aligned(mode, files, src, at) && j < |src| && TakenUpTo(mode, files, src, at, j)
    ensures Aligned(mode, files + [SM.FileLog(src[j].name, [])], src, at + [j])
  {
    var files', at' := files + [SM.FileLog(src[j].name, [])], at + [j];
    assert files'[..|files|] == files && at'[..|files|] == at;
  }

  lemma ConnHoldsPrefix(log: Log, c: Ctx, f: SrcFile, k: nat)
    requires Conn(log, c, f, k) || Closed(log, c, f)
    ensures HoldsPrefix(c.mode, LastFile(log), f)
  {
    if Conn(log, c, f, k) {
      CopyPrefix(c.mode, f.events, k);
      assert LastFile(log).evs <= LastFile(log).evs + log.tail;
    }
  }

  lemma NothingLeft(log: Log, c: Ctx, f: SrcFile)
    requires Conn(log, c, f, |f.events|) || Closed(log, c, f)
    ensures |LastFile(log).evs| <= |f.events|
    ensures Dropped(c.mode, Copy(c.mode, f.events)[|LastFile(log).evs|..])
  {
    assert f.events[..|f.events|] == f.events;
    if Conn(log, c, f, |f.events|) {
      assert Copy(c.mode, f.events)[|LastFile(log).evs|..] == log.tail;
      SM.GtidsOfUnfinished(log.tail);
    } else {
      assert Copy(c.mode, f.events)[|LastFile(log).evs|..] == [];
    }
  }

  lemma StandingInFile(log: Log, c: Ctx, src: seq<SrcFile>, at: seq<nat>, j: nat, k: nat)
    requires Standing(log, c, src, at, j, k) && GoodSource(c.mode, src) && k < |src[j].events|
    ensures ProcessEvent(log, c, src[j].events[k]).Ok?
    ensures var (log', c') := ProcessEvent(log, c, src[j].events[k]).value;
      c'.mode == c.mode && Standing(log', c', src, at, j, k + 1)
  {
    hide ProcessEvent, Conn, Closed, GoodFile, HoldsPrefix, Aligned;
    var f := src[j];
    StepInFile(log, c, f, k);
    var (log', c') := ProcessEvent(log, c, f.events[k]).value;
    ConnHoldsPrefix(log', c', f, k + 1);
    AlignedLength(c.mode, log.files, src, at);
    ReplaceLast(c.mode, log.files, log'.files, src, at);
  }

  lemma AlignedLength(mode: ReplicationMode, files: seq<FileLog>, src: seq<SrcFile>, at: seq<nat>)
    requires Aligned(mode, files, src, at)
    ensures |at| == |files|
  {
  }

  lemma StandingAtEnd(log: Log, c: Ctx, src: seq<SrcFile>, at: seq<nat>, j: nat)
    requires j < |src| && Standing(log, c, src, at, j, |src[j].events|) && GoodSource(c.mode, src) && j + 1 < |src|
    ensures ProcessEvent(log, c, ArtificialRotate(src[j + 1].name, MAGIC_OFFSET)).Ok?
    ensures var (log', c') := ProcessEvent(log, c, ArtificialRotate(src[j + 1].name, MAGIC_OFFSET)).value;
      c'.mode == c.mode && Standing(log', c', src, at + [j + 1], j + 1, 0)
  {
    hide ProcessEvent, CanEnter, GoodFile, HoldsPrefix, Aligned;
    var name := src[j + 1].name;
    AlignedLength(c.mode, log.files, src, at);
    NothingLeft(log, c, src[j]);
    NewName(c.mode, log.files, src, at, j + 1);
    EndCanEnter(log, c, src[j]);
    EnterNew(log, c, name);
    AddLast(c.mode, log.files, src, at, j + 1);
    var (log', c') := ProcessEvent(log, c, ArtificialRotate(name, MAGIC_OFFSET)).value;
    EnterConnects(log', c, src[j + 1]);
  }

  // ----- the rest of a connection ------------------------------------------------------

  /** Files only grow, and all but the last stay as they are. */
  ghost predicate Grows(a: seq<FileLog>, b: seq<FileLog>) {
    && |a| <= |b|
    && (forall i :: 0 <= i < |a| - 1 ==> a[i] == b[i])
    && (a != [] ==> a[|a| - 1].name == b[|a| - 1].name && a[|a| - 1].evs <= b[|a| - 1].evs)
  }

  lemma GrowsTransitive(a: seq<FileLog>, b: seq<FileLog>, c: seq<FileLog>)
    requires Grows(a, b) && Grows(b, c)
    ensures Grows(a, c)
  {
  }

  ghost predicate Settled(log: Log, c: Ctx, src: seq<SrcFile>, at: seq<nat>, j: nat, k: nat, rest: seq<Event>) {
    Standing(log, c, src, at, j, k) && k <= |src[j].events| && Remaining(src, j, k) == rest
  }

  lemma RemainingHead(src: seq<SrcFile>, j: nat, k: nat)
    requires j < |src| && k <= |src[j].events| && Remaining(src, j, k) != []
    ensures var rest := Remaining(src, j, k);
      if k < |src[j].events| then
        rest[0] == src[j].events[k] && rest[1..] == Remaining(src, j, k + 1)
      else
        && j + 1 < |src| && rest[0] == ArtificialRotate(src[j + 1].name, MAGIC_OFFSET)
        && rest[1..] == Remaining(src, j + 1, 0)
  {
  }

  /** The head of what remains is accepted, and leads to the position behind it. */
  lemma OneMore(log: Log, c: Ctx, src: seq<SrcFile>, at: seq<nat>, j: nat, k: nat, rest: seq<Event>)
    returns (at': seq<nat>, j': nat, k': nat)
    requires Settled(log, c, src, at, j, k, rest) && GoodSource(c.mode, src) && rest != []
    ensures j < |src| && (j', k') == if k < |src[j].events| then (j, k + 1) else (j + 1, 0)
    ensures ProcessEvent(log, c, rest[0]).Ok?
    ensures var (log', c') := ProcessEvent(log, c, rest[0]).value;
      c'.mode == c.mode && Settled(log', c', src, at', j', k', rest[1..]) && Grows(log.files, log'.files)
  {
    hide ProcessEvent, Conn, Closed, GoodFile, Aligned, Standing, Grows, Remaining;
    StandingBasics(log, c, src, at, j, k);
    RemainingHead(src, j, k);
    if k < |src[j].events| {
      StandingInFile(log, c, src, at, j, k);
      StepGrows(log, c, src[j], k);
      at', j', k' := at, j, k + 1;
    } else {
      StandingAtEnd(log, c, src, at, j);
      EnterGrows(log, c, src, at, j);
      at', j', k' := at + [j + 1], j + 1, 0;
    }
  }

  lemma StandingBasics(log: Log, c: Ctx, src: seq<SrcFile>, at: seq<nat>, j: nat, k: nat)
    requires Standing(log, c, src, at, j, k)
    ensures j < |src| && k <= |src[j].events|
    ensures Aligned(c.mode, log.files, src, at)
    ensures Conn(log, c, src[j], k) || (k == |src[j].events| && Closed(log, c, src[j]))
    ensures SM.NoBoundary(log.tail) && (log.open || log.tail == []) && log.files != []
  {
  }

  lemma StepGrows(log: Log, c: Ctx, f: SrcFile, k: nat)
    requires Conn(log, c, f, k) && k < |f.events| && GoodFile(c.mode, f)
    ensures ProcessEvent(log, c, f.events[k]).Ok?
    ensures Grows(log.files, ProcessEvent(log, c, f.events[k]).value.0.files)
  {
    hide ProcessEvent, GoodFile;
    StepInFile(log, c, f, k);
    var (log', c') := ProcessEvent(log, c, f.events[k]).value;
    ConnName(log', c', f, k + 1);
    assert forall i :: 0 <= i < |log.files| - 1 ==>
      log.files[i] == log.files[..|log.files| - 1][i] && log'.files[i] == log'.files[..|log.files| - 1][i];
  }

  lemma ConnName(log: Log, c: Ctx, f: SrcFile, k: nat)
    requires Conn(log, c, f, k) || Closed(log, c, f)
    ensures log.files != [] && LastFile(log).name == f.name
  {
  }

  lemma EnterGrows(log: Log, c: Ctx, src: seq<SrcFile>, at: seq<nat>, j: nat)
    requires j < |src| && Standing(log, c, src, at, j, |src[j].events|) && GoodSource(c.mode, src) && j + 1 < |src|
    ensures ProcessEvent(log, c, ArtificialRotate(src[j + 1].name, MAGIC_OFFSET)).Ok?
    ensures Grows(log.files, ProcessEvent(log, c, ArtificialRotate(src[j + 1].name, MAGIC_OFFSET)).value.0.files)
  {
    hide ProcessEvent, GoodFile, Aligned;
    StandingBasics(log, c, src, at, j, |src[j].events|);
    AlignedLength(c.mode, log.files, src, at);
    NewName(c.mode, log.files, src, at, j + 1);
    EndCanEnter(log, c, src[j]);
    EnterNew(log, c, src[j + 1].name);
  }

  /** However much of the rest arrives, it is accepted. */
  lemma {:induction false} FeedRemaining(log: Log, c: Ctx, src: seq<SrcFile>, at: seq<nat>, j: nat, k: nat,
                                         rest: seq<Event>, n: nat)
    returns (at': seq<nat>, j': nat, k': nat)
    requires Settled(log, c, src, at, j, k, rest) && GoodSource(c.mode, src) && n <= |rest|
    ensures Feed(log, c, rest[..n]).Ok?
    ensures var (log', c') := Feed(log, c, rest[..n]).value;
      c'.mode == c.mode && Settled(log', c', src, at', j', k', rest[n..]) && Grows(log.files, log'.files)
    decreases n
  {
    hide ProcessEvent, Settled, GoodSource, Grows;
    if n == 0 {
      at', j', k' := at, j, k;
      assert rest[..0] == [] && rest[0..] == rest;
      GrowsReflexive(log.files);
    } else {
      var at1, j1, k1 := OneMore(log, c, src, at, j, k, rest);
      var (log1, c1) := ProcessEvent(log, c, rest[0]).value;
      at', j', k' := FeedRemaining(log1, c1, src, at1, j1, k1, rest[1..], n - 1);
      assert rest[..n][1..] == rest[1..][..n - 1];
      assert rest[1..][n - 1..] == rest[n..];
      GrowsTransitive(log.files, log1.files, Feed(log, c, rest[..n]).value.0.files);
    }
  }

  lemma GrowsReflexive(a: seq<FileLog>)
    ensures Grows(a, a)
  {
  }

  // ----- the start of a connection -----------------------------------------------------

  /** What a connection starts from: whole transactions only, the file open or not. */
  ghost predicate AtRest(mode: ReplicationMode, log: Log, src: seq<SrcFile>, at: seq<nat>) {
    log.tail == [] && (log.files == [] ==> !log.open) && Aligned(mode, log.files, src, at)
  }

  /** The reader after an artificial ROTATE back to the stored file. */
  ghost function Back(mode: ReplicationMode, name: Name, pos: nat): Ctx {
    Ctx(Description, mode, Some(name), pos, None, 0, 0, 0, pos > MAGIC_OFFSET, 1)
  }

  lemma ReturnToLast(log: Log, mode: ReplicationMode)
    requires log.files != [] && log.tail == [] && CurrentPosition(log) < U32
    ensures var pos := CurrentPosition(log);
      ProcessEvent(log, FreshContext(log, mode),
                   ArtificialRotate(LastFile(log).name, if mode == Position then pos else MAGIC_OFFSET))
      == Ok((log.(open := true), Back(mode, LastFile(log).name, pos)))
  {
    var pos := CurrentPosition(log);
    var name := LastFile(log).name;
    var c := FreshContext(log, mode);
    var e := ArtificialRotate(name, if mode == Position then pos else MAGIC_OFFSET);
    assert SM.Bytes([]) == [];
    assert pos % U32 == pos;
    assert Process(c, e) == Ok((Back(mode, name, pos), true));
    if log.open {
      assert OpsFor(See(log), Back(mode, name, pos), true, e).value == [];
    } else {
      OneCall(log, SR.Open(name));
      assert SM.HasFile(log.files, name);
      assert OpsFor(See(log), Back(mode, name, pos), true, e).value == [SR.Open(name)];
    }
  }

  /** An event the reader calls informational leaves the log alone. */
  lemma InfoOnly(log: Log, c: Ctx, e: Event)
    requires Process(c, e).Ok? && Process(c, e).value.1 && !e.code.Rotate? && !e.code.Stop?
    ensures ProcessEvent(log, c, e) == Ok((log, Process(c, e).value.0))
  {
    hide Process;
    assert OpsFor(See(log), Process(c, e).value.0, true, e).value == [];
  }

  /** The stored position is the offset behind the stored events. */
  lemma StoredPosition(mode: ReplicationMode, log: Log, f: SrcFile)
    requires log.files != [] && log.tail == [] && HoldsPrefix(mode, LastFile(log), f) && GoodFile(mode, f)
    ensures var k := |LastFile(log).evs|;
      && k <= |f.events| && LastFile(log).evs == Copy(mode, f.events[..k])
      && CurrentPosition(log) == Offset(f.events[..k]) < U32
      && MAGIC_OFFSET + k <= CurrentPosition(log)
  {
    var k := |LastFile(log).evs|;
    CopyPrefix(mode, f.events, k);
    assert LastFile(log).evs == Copy(mode, f.events)[..k];
    OffsetOfCopy(mode, f.events[..k]);
    OffsetGrows(f.events, k);
    assert SM.Bytes([]) == [];
  }

  /** A non-empty stored prefix ends with a transaction or with the file's terminator. */
  lemma StoredPhase(mode: ReplicationMode, f: SrcFile, k: nat)
    requires GoodFile(mode, f) && 0 < k <= |f.events| && SM.Complete(Copy(mode, f.events[..k]))
    ensures var p := PhaseOf(mode, f.events[..k]); p.Ended? || (p.InTxn? && p.seen == p.expected)
    ensures k >= 3
  {
    hide GoodFile;
    CopySnoc(mode, f.events, k - 1);
    FirstPhases(mode, f);
    assert f.events[..2][..1] == f.events[..1];
  }

  lemma FirstPhases(mode: ReplicationMode, f: SrcFile)
    requires GoodFile(mode, f)
    ensures |f.events| >= 2
    ensures PhaseOf(mode, f.events[..0]).AtStart? && PhaseOf(mode, f.events[..1]).Described?
    ensures PhaseOf(mode, f.events[..2]).Idle?
    ensures f.events[0].code.FormatDescription? && f.events[0].bodyOk && !f.events[0].artificial
    ensures f.events[1].code.PreviousGtids? && !f.events[1].artificial
  {
    hide GoodFile, PhaseOf;
    FirstTwo(mode, f);
    GoodEvents(mode, f, 0);
    GoodEvents(mode, f, 1);
  }

  lemma FirstTwo(mode: ReplicationMode, f: SrcFile)
    requires GoodFile(mode, f)
    ensures |f.events| >= 2 && PhaseOf(mode, f.events[..0]).AtStart?
  {
  }
}
