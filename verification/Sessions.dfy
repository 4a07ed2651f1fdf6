/** Any number of connections, timeouts and crashes against a source that grows. */
module Sessions {
  import opened Prelude
  import opened ReaderContext
  import opened Streaming
  import opened Alignment
  import opened Connections
  import opened GtidResume
  import SM = StorageModel
  import SR = StorageRuns

  // ----- transactions in order ---------------------------------------------------------

  ghost predicate IsCommit(mode: ReplicationMode, e: Ev) {
    e.boundary && (mode == Position || e.gtid.Some?)
  }

  /** The last events of the transactions among these events, in order. */
  ghost function Commits(mode: ReplicationMode, evs: seq<Ev>): seq<Ev> {
    if evs == [] then []
    else
      var n := |evs| - 1;
      Commits(mode, evs[..n]) + (if IsCommit(mode, evs[n]) then [evs[n]] else [])
  }

  ghost function StoredCommits(mode: ReplicationMode, files: seq<FileLog>): seq<Ev> {
    if files == [] then []
    else StoredCommits(mode, files[..|files| - 1]) + Commits(mode, files[|files| - 1].evs)
  }

  ghost function SourceCommits(mode: ReplicationMode, src: seq<SrcFile>, j: nat): seq<Ev>
    requires j <= |src|
  {
    if j == 0 then [] else SourceCommits(mode, src, j - 1) + Commits(mode, Copy(mode, src[j - 1].events))
  }

  lemma {:induction false} CommitsConcat(mode: ReplicationMode, a: seq<Ev>, b: seq<Ev>)
    ensures Commits(mode, a + b) == Commits(mode, a) + Commits(mode, b)
    decreases |b|
  {
    if b == [] {
      assert a + b == a;
    } else {
      var n := |b| - 1;
      hide IsCommit;
      CommitsConcat(mode, a, b[..n]);
      var c := a + b;
      assert c[..|c| - 1] == a + b[..n] && c[|c| - 1] == b[n];
    }
  }

  lemma {:induction false} DroppedCommits(mode: ReplicationMode, evs: seq<Ev>)
    requires Dropped(mode, evs)
    ensures Commits(mode, evs) == []
    decreases |evs|
  {
    if evs != [] {
      var n := |evs| - 1;
      assert evs == evs[..n] + [evs[n]];
      SM.GtidsConcat(evs[..n], [evs[n]]);
      SM.GtidsOne(evs[n]);
      DroppedCommits(mode, evs[..n]);
    }
  }

  lemma {:induction false} GapCommits(mode: ReplicationMode, src: seq<SrcFile>, a: nat, b: nat)
    requires AllGaps(mode, src, a, b) && b <= |src|
    ensures SourceCommits(mode, src, b) == SourceCommits(mode, src, a)
    decreases b
  {
    hide Copy, Commits;
    if a < b {
      GapCommits(mode, src, a, b - 1);
      DroppedCommits(mode, Copy(mode, src[b - 1].events));
    }
  }

  lemma {:induction false} TakenCommits(mode: ReplicationMode, files: seq<FileLog>, src: seq<SrcFile>, at: seq<nat>,
                                        j: nat)
    requires Aligned(mode, files, src, at) && TakenUpTo(mode, files, src, at, j) && j <= |src|
    ensures StoredCommits(mode, files) == SourceCommits(mode, src, j)
    decreases |files|
  {
    hide Copy, Commits, AllGaps, Dropped;
    if files == [] {
      GapCommits(mode, src, 0, j);
    } else {
      var n := |files| - 1;
      var m := at[n];
      TakenCommits(mode, files[..n], src, at[..n], m);
      GapCommits(mode, src, m + 1, j);
      var all, k := Copy(mode, src[m].events), |files[n].evs|;
      assert all == files[n].evs + all[k..];
      CommitsConcat(mode, files[n].evs, all[k..]);
      DroppedCommits(mode, all[k..]);
    }
  }

  lemma {:induction false} CommitsMonotone(mode: ReplicationMode, src: seq<SrcFile>, a: nat, b: nat)
    requires a <= b <= |src|
    ensures SourceCommits(mode, src, a) <= SourceCommits(mode, src, b)
  {
    hide Commits, Copy;
    if a < b { CommitsMonotone(mode, src, a, b - 1); }
  }

  /** The stored transactions are the first ones of the source, in the source's order, each once. */
  lemma StoredIsAPrefix(mode: ReplicationMode, files: seq<FileLog>, src: seq<SrcFile>, at: seq<nat>)
    requires Aligned(mode, files, src, at)
    ensures StoredCommits(mode, files) <= SourceCommits(mode, src, |src|)
  {
    hide Copy, Commits, AllGaps, Dropped;
    if files != [] {
      var n := |files| - 1;
      var m := at[n];
      TakenCommits(mode, files[..n], src, at[..n], m);
      var all, k := Copy(mode, src[m].events), |files[n].evs|;
      assert all == files[n].evs + all[k..];
      CommitsConcat(mode, files[n].evs, all[k..]);
      assert StoredCommits(mode, files) <= SourceCommits(mode, src, m + 1);
      CommitsMonotone(mode, src, m + 1, |src|);
    }
  }

  /** Everything the source has committed is stored. */
  lemma StoredIsAll(mode: ReplicationMode, files: seq<FileLog>, src: seq<SrcFile>, at: seq<nat>)
    requires Aligned(mode, files, src, at) && HasAll(mode, files, src, at)
    ensures StoredCommits(mode, files) == SourceCommits(mode, src, |src|)
  {
    TakenCommits(mode, files, src, at, |src|);
  }

  // ----- bytes -------------------------------------------------------------------------

  /** The bytes of a source file after its magic. */
  ghost function Data(events: seq<Event>): seq<Byte> {
    if events == [] then [] else Data(events[..|events| - 1]) + events[|events| - 1].data
  }

  lemma {:induction false} BytesOfCopy(mode: ReplicationMode, events: seq<Event>)
    ensures SM.Bytes(Copy(mode, events)) == Data(events)
  {
    if events != [] {
      var n := |events| - 1;
      BytesOfCopy(mode, events[..n]);
      var c := Copy(mode, events);
      assert c[..n] == Copy(mode, events[..n]);
    }
  }

  /** The stored file is byte for byte a prefix of the source's file of that name. */
  ghost predicate Faithful(f: FileLog, src: seq<SrcFile>) {
    exists j :: 0 <= j < |src| && f.name == src[j].name && SM.Bytes(f.evs) <= Data(src[j].events)
  }

  /** Every stored file is, byte for byte, a prefix of the source file of the same name. */
  lemma {:induction false} StoredBytes(mode: ReplicationMode, files: seq<FileLog>, src: seq<SrcFile>, at: seq<nat>,
                                       i: nat)
    requires Aligned(mode, files, src, at) && i < |files|
    ensures |at| == |files| && at[i] < |src| && files[i].name == src[at[i]].name
    ensures SM.Bytes(files[i].evs) <= Data(src[at[i]].events)
    decreases |files|
  {
    hide Copy, AllGaps, Dropped, Data, SM.Bytes;
    var n := |files| - 1;
    if i < n {
      StoredBytes(mode, files[..n], src, at[..n], i);
    } else {
      var all, k := Copy(mode, src[at[n]].events), |files[n].evs|;
      BytesOfCopy(mode, src[at[n]].events);
      assert all == files[n].evs + all[k..];
      SM.BytesConcat(files[n].evs, all[k..]);
    }
  }

  // ----- a source that grows -----------------------------------------------------------

  /** New files may appear and the last file may get longer; finished files stay as they are. */
  ghost predicate Grown(src: seq<SrcFile>, src': seq<SrcFile>) {
    && |src| <= |src'|
    && (forall i :: 0 <= i < |src| - 1 ==> src'[i] == src[i])
    && (src != [] ==> var n := |src| - 1; src'[n].name == src[n].name && src[n].events <= src'[n].events)
  }

  lemma GrownGaps(mode: ReplicationMode, src: seq<SrcFile>, src': seq<SrcFile>, a: nat, b: nat)
    requires Grown(src, src') && AllGaps(mode, src, a, b) && b < |src|
    ensures AllGaps(mode, src', a, b)
  {
    hide Copy;
    if mode == GtidBased {
      forall x | a <= x < b ensures SM.Gtids(Copy(mode, src'[x].events)) == {} {
        assert src'[x] == src[x];
      }
    }
  }

  lemma GrownTaken(mode: ReplicationMode, files: seq<FileLog>, src: seq<SrcFile>, src': seq<SrcFile>, at: seq<nat>,
                   j: nat)
    requires Grown(src, src') && |at| == |files| && j < |src| && TakenUpTo(mode, files, src, at, j)
    ensures TakenUpTo(mode, files, src', at, j)
  {
    hide Copy, AllGaps, Dropped;
    if files == [] {
      GrownGaps(mode, src, src', 0, j);
    } else {
      GrownGaps(mode, src, src', at[|at| - 1] + 1, j);
    }
  }

  lemma GrownPrefix(mode: ReplicationMode, f: FileLog, src: seq<SrcFile>, src': seq<SrcFile>, j: nat)
    requires Grown(src, src') && j < |src| && HoldsPrefix(mode, f, src[j])
    ensures HoldsPrefix(mode, f, src'[j])
  {
    hide Copy;
    CopyPrefix(mode, src'[j].events, |src[j].events|);
    assert src'[j].events[..|src[j].events|] == src[j].events;
  }

  lemma {:induction false} GrownAligned(mode: ReplicationMode, files: seq<FileLog>, src: seq<SrcFile>,
                                        src': seq<SrcFile>, at: seq<nat>)
    requires Grown(src, src') && Aligned(mode, files, src, at)
    ensures Aligned(mode, files, src', at)
    decreases |files|
  {
    hide HoldsPrefix, TakenUpTo;
    if files != [] {
      var n := |files| - 1;
      GrownTaken(mode, files[..n], src, src', at[..n], at[n]);
      GrownPrefix(mode, files[n], src, src', at[n]);
      GrownAligned(mode, files[..n], src, src', at[..n]);
    }
  }

  // ----- crashes -----------------------------------------------------------------------

  /** What a crash leaves of a log whose last file is on disk: transactions of that file may be lost. */
  ghost predicate Trimmed(log: Log, files: seq<FileLog>) {
    if log.files == [] then files == []
    else
      var n := |log.files| - 1;
      && |files| == n + 1 && files[..n] == log.files[..n] && files[n].name == log.files[n].name
      && SM.Complete(files[n].evs) && files[n].evs <= log.files[n].evs
  }

  /** What a crash may leave of the log: transactions of the last file are lost, or that file with them. */
  ghost predicate Survives(log: Log, files: seq<FileLog>) {
    Trimmed(log, files) || (log.files != [] && files == log.files[..|log.files| - 1])
  }

  lemma SurvivorsAligned(mode: ReplicationMode, log: Log, src: seq<SrcFile>, at: seq<nat>, files: seq<FileLog>)
    returns (at': seq<nat>)
    requires Aligned(mode, log.files, src, at) && Survives(log, files)
    ensures Aligned(mode, files, src, at')
  {
    at' := at;
    if log.files != [] {
      var n := |log.files| - 1;
      if files == log.files[..n] {
        at' := at[..n];
      } else {
        ReplaceLast(mode, log.files, files, src, at);
      }
    }
  }

  // ----- turns -------------------------------------------------------------------------

  ghost predicate Sound(mode: ReplicationMode, base: set<Gtid>, src: seq<SrcFile>) {
    && src != [] && GoodSource(mode, src)
    && (mode == GtidBased ==> FreshGtids(src, base) && Active(src))
  }

  /** The server's answer to the request open_connection_and_switch_to_replication derives from the storage. */
  ghost function Serve(mode: ReplicationMode, base: set<Gtid>, src: seq<SrcFile>, log: Log): Option<seq<Event>> {
    if mode == Position then ServePosition(src, CurrentName(log), CurrentPosition(log))
    else ServeGtids(src, base, SM.AllGtids(base, log.files))
  }

  /** One connection: what the source had, how many events arrived, and how it ended. */
  datatype Turn = Turn(src: seq<SrcFile>, received: nat, crash: Option<seq<FileLog>>)

  ghost predicate Arrives(mode: ReplicationMode, base: set<Gtid>, log: Log, t: Turn) {
    Serve(mode, base, t.src, log).Some? && t.received <= |Serve(mode, base, t.src, log).value|
  }

  ghost function Received(mode: ReplicationMode, base: set<Gtid>, log: Log, t: Turn): Result<(Log, Ctx)>
    requires Arrives(mode, base, log, t)
  {
    Feed(log, FreshContext(log, mode), Serve(mode, base, t.src, log).value[..t.received])
  }

  ghost predicate Leads(mode: ReplicationMode, base: set<Gtid>, log: Log, t: Turn, log': Log) {
    && Arrives(mode, base, log, t) && Received(mode, base, log, t).Ok?
    && var mid := Received(mode, base, log, t).value.0;
       match t.crash
       case None => log' == SR.LogApply(SR.LogApply(mid, SR.Discard), SR.FlushNow)
       case Some(files) => Survives(mid, files) && log' == SR.Log(files, [], false)
  }

  /** The answer resumes where the store ends. */
  lemma AnswerResumes(mode: ReplicationMode, base: set<Gtid>, log: Log, src: seq<SrcFile>, at: seq<nat>)
    returns (j: nat)
    requires Sound(mode, base, src) && AtRest(mode, log, src, at)
    ensures Serve(mode, base, src, log).Some? && Resumes(mode, log, src, at, j, Serve(mode, base, src, log).value)
  {
    hide GoodSource, AtRest, ServePosition, ServeGtids, Resumes, FreshGtids, Active, CurrentPosition;
    if mode == Position {
      j := PositionResumes(log, src, at);
    } else {
      j := GtidResumes(log, src, at, base);
    }
  }

  /** The server can always answer, and the reader and the storage accept the answer however far it gets. */
  lemma NeverRefused(mode: ReplicationMode, base: set<Gtid>, log: Log, src: seq<SrcFile>, at: seq<nat>, n: nat)
    returns (at': seq<nat>)
    requires Sound(mode, base, src) && AtRest(mode, log, src, at)
    ensures Serve(mode, base, src, log).Some?
    ensures n <= |Serve(mode, base, src, log).value| ==>
      var r := Feed(log, FreshContext(log, mode), Serve(mode, base, src, log).value[..n]);
      && r.Ok? && CutOff(mode, r.value.0, src, at') && Grows(log.files, r.value.0.files)
      && (n == |Serve(mode, base, src, log).value| ==> HasAll(mode, r.value.0.files, src, at'))
  {
    hide GoodSource, AtRest, Serve, Resumes, Feed, CutOff, Grows, FreshGtids, Active, FreshContext, HasAll;
    var j := AnswerResumes(mode, base, log, src, at);
    at' := at;
    var stream := Serve(mode, base, src, log).value;
    if n <= |stream| {
      at' := ConnectionAccepted(mode, log, src, at, j, stream, n);
    }
  }

  lemma RestAfterCut(mode: ReplicationMode, log: Log, src: seq<SrcFile>, at: seq<nat>)
    requires CutOff(mode, log, src, at)
    ensures AtRest(mode, SR.LogApply(SR.LogApply(log, SR.Discard), SR.FlushNow), src, at)
    ensures SR.LogApply(SR.LogApply(log, SR.Discard), SR.FlushNow).files == log.files
  {
  }

  /** A turn, however it ends, leaves the store aligned with the source. */
  lemma TurnKeeps(mode: ReplicationMode, base: set<Gtid>, log: Log, t: Turn, at: seq<nat>, log': Log)
    returns (at': seq<nat>)
    requires Sound(mode, base, t.src) && AtRest(mode, log, t.src, at) && Leads(mode, base, log, t, log')
    ensures AtRest(mode, log', t.src, at')
    ensures t.crash.None? ==> Grows(log.files, log'.files)
    ensures t.crash.None? && t.received == |Serve(mode, base, t.src, log).value| ==>
      HasAll(mode, log'.files, t.src, at')
  {
    hide Sound, Serve, Feed, Aligned, Grows, SR.LogApply, HasAll, FreshContext;
    at' := NeverRefused(mode, base, log, t.src, at, t.received);
    var mid := Received(mode, base, log, t).value.0;
    if t.crash.None? {
      RestAfterCut(mode, mid, t.src, at');
    } else {
      at' := SurvivorsAligned(mode, mid, t.src, at', t.crash.value);
    }
  }

  // ----- every history -----------------------------------------------------------------

  /** Connection after connection, from an empty storage; the source may grow before each. */
  ghost predicate History(mode: ReplicationMode, base: set<Gtid>, turns: seq<Turn>, logs: seq<Log>) {
    && |logs| == |turns| + 1 && logs[0] == SR.Log([], [], false)
    && (forall i :: 0 <= i < |turns| ==>
      Sound(mode, base, turns[i].src) && Leads(mode, base, logs[i], turns[i], logs[i + 1]))
    && (forall i :: 0 < i < |turns| ==> Grown(turns[i - 1].src, turns[i].src))
  }

  lemma {:induction false} HistoryAligned(mode: ReplicationMode, base: set<Gtid>, turns: seq<Turn>, logs: seq<Log>,
                                          src: seq<SrcFile>)
    returns (at: seq<nat>)
    requires History(mode, base, turns, logs)
    requires turns == [] || Grown(turns[|turns| - 1].src, src)
    ensures AtRest(mode, logs[|turns|], src, at)
    decreases |turns|
  {
    hide Sound, Leads, Aligned, Grown;
    if turns == [] {
      at := [];
      NothingAligned(mode, src);
    } else {
      var n := |turns| - 1;
      var t := turns[n];
      var at0 := HistoryAligned(mode, base, turns[..n], logs[..n + 1], t.src);
      at := TurnKeeps(mode, base, logs[n], t, at0, logs[n + 1]);
      GrownAligned(mode, logs[n + 1].files, t.src, src, at);
    }
  }

  lemma NothingAligned(mode: ReplicationMode, src: seq<SrcFile>)
    ensures Aligned(mode, [], src, [])
  {
  }

  /**
   * Exactly once.  After any history of connections, cut off anywhere by timeouts and crashes, the
   * stored transactions are a prefix of the source's, and every stored file is byte for byte a
   * prefix of the source's file of that name.
   */
  lemma ExactlyOnce(mode: ReplicationMode, base: set<Gtid>, turns: seq<Turn>, logs: seq<Log>, src: seq<SrcFile>)
    requires History(mode, base, turns, logs)
    requires turns == [] || Grown(turns[|turns| - 1].src, src)
    ensures StoredCommits(mode, logs[|turns|].files) <= SourceCommits(mode, src, |src|)
    ensures forall i :: 0 <= i < |logs[|turns|].files| ==> Faithful(logs[|turns|].files[i], src)
  {
    hide Sound, Leads, Aligned, Grown, StoredCommits, SourceCommits, SM.Bytes, Data;
    var files := logs[|turns|].files;
    var at := HistoryAligned(mode, base, turns, logs, src);
    StoredIsAPrefix(mode, files, src, at);
    forall i | 0 <= i < |files| ensures Faithful(files[i], src) {
      StoredBytes(mode, files, src, at, i);
    }
  }

  /** After any history the next connection is answered, accepted, and complete once all of it has arrived. */
  lemma CatchesUp(mode: ReplicationMode, base: set<Gtid>, turns: seq<Turn>, logs: seq<Log>, t: Turn, log': Log)
    requires History(mode, base, turns, logs) && Sound(mode, base, t.src) && t.crash.None?
    requires turns == [] || Grown(turns[|turns| - 1].src, t.src)
    ensures Serve(mode, base, t.src, logs[|turns|]).Some?
    ensures && t.received == |Serve(mode, base, t.src, logs[|turns|]).value|
            && Leads(mode, base, logs[|turns|], t, log') ==>
      StoredCommits(mode, log'.files) == SourceCommits(mode, t.src, |t.src|)
  {
    hide Aligned, Grown, StoredCommits, SourceCommits, Sound, Serve, Leads;
    var log := logs[|turns|];
    var at := HistoryAligned(mode, base, turns, logs, t.src);
    var at1 := NeverRefused(mode, base, log, t.src, at, t.received);
    if t.received == |Serve(mode, base, t.src, log).value| && Leads(mode, base, log, t, log') {
      var at' := TurnKeeps(mode, base, log, t, at, log');
      StoredIsAll(mode, log'.files, t.src, at');
    }
  }
}
