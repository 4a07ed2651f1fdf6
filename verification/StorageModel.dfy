/**
 * binsrv::storage as a transition system on values.
 *
 * The state holds every field of the class plus its backend; each operation is a function that
 * performs the same steps in the same order.  The backend keeps the trace of all disk images it
 * went through, so that a crash between any two steps can be examined later.
 */
module StorageModel {
  import opened Prelude
  import opened BinlogNames
  import opened TimestampRange

  // ----- values ------------------------------------------------------------------------

  /** The arguments of one write_event call. */
  datatype Ev = Ev(bytes: seq<Byte>, boundary: bool, gtid: Option<Gtid>, ts: int, seqno: nat)

  datatype Record = Record(name: Name, size: nat, previous: Option<set<Gtid>>, added: Option<set<Gtid>>,
                           ts: Range, lastSeq: nat)

  /** Objects of a storage directory; JSON documents are kept in parsed form. */
  datatype Object =
    | Payload(bytes: seq<Byte>)
    | FileMeta(size: nat, previous: Option<set<Gtid>>, added: Option<set<Gtid>>, minTs: int, maxTs: int, lastSeq: nat)
    | Text(text: string)
    | StorageMeta(mode: ReplicationMode)

  type Disk = map<ObjectName, Object>

  /** A disk together with its directory as of the last directory fsync. */
  datatype Snap = Snap(disk: Disk, synced: Disk)

  datatype Backend = Backend(disk: Disk, synced: Disk, stream: Option<ObjectName>, trace: seq<Snap>) {

    /** put_object: visible after the rename, durable after the directory fsync. */
    ghost function Put(name: ObjectName, content: Object): Backend {
      var d := disk[name := content];
      Backend(d, d, stream, trace + [Snap(d, synced), Snap(d, d)])
    }

    /** open_stream in create mode: the file appears empty, its directory entry is not fsynced. */
    ghost function Create(name: ObjectName): Backend {
      var d := disk[name := Payload([])];
      Backend(d, synced, Some(name), trace + [Snap(d, synced)])
    }

    ghost function Append(data: seq<Byte>): Backend
      requires stream.Some? && stream.value in disk && disk[stream.value].Payload?
    {
      var d := disk[stream.value := Payload(disk[stream.value].bytes + data)];
      Backend(d, synced, stream, trace + [Snap(d, synced)])
    }
  }

  datatype ConstructionMode = Streaming | Purging

  datatype State = State(
    construction: ConstructionMode, mode: ReplicationMode, ckptSize: nat, ckptInterval: nat,
    backend: Backend, records: seq<Record>, purged: set<Gtid>,
    lastCkptPos: nat, lastCkptTime: nat,
    buffer: seq<Byte>, boundary: nat, bufGtids: set<Gtid>,
    readyTs: Range, incTs: Range, readySeq: nat, incSeq: nat)
  {
    predicate IsEmpty() { records == [] }

    function Current(): Record
      requires !IsEmpty()
    {
      records[|records| - 1]
    }

    function FlushedPosition(): nat {
      if IsEmpty() then 0 else Current().size
    }

    function CurrentPosition(): nat {
      FlushedPosition() + |buffer|
    }

    /** get_gtids: what the storage holds durably; buffered transactions are not included. */
    ghost function GetGtids(): set<Gtid> {
      if mode != GtidBased then {}
      else if IsEmpty() then purged
      else
        (if Current().previous.Some? then Current().previous.value else {}) +
        (if Current().added.Some? then Current().added.value else {})
    }
  }

  function MetaOf(r: Record): Object {
    FileMeta(r.size, r.previous, r.added, r.ts.min, r.ts.max, r.lastSeq)
  }

  function NamesOf(records: seq<Record>): seq<Name> {
    seq(|records|, i requires 0 <= i < |records| => records[i].name)
  }

  // ----- operations --------------------------------------------------------------------

  ghost function UpdateCheckpoint(s: State, now: nat): State {
    s.(lastCkptPos := if s.ckptSize != 0 then s.CurrentPosition() else s.lastCkptPos,
       lastCkptTime := if s.ckptInterval != 0 then now else s.lastCkptTime)
  }

  ghost predicate StreamReady(s: State) {
    && s.backend.stream.Some?
    && s.backend.stream.value in s.backend.disk
    && s.backend.disk[s.backend.stream.value].Payload?
  }

  ghost function OpenNew(s: State, name: Name): State {
    var b := s.backend.Create(PayloadFile(name)).Append(MAGIC);
    var prior := if s.mode == GtidBased then Some(s.GetGtids()) else None;
    var added := if s.mode == GtidBased then Some({}) else None;
    var r := Record(name, MAGIC_OFFSET, prior, added, EMPTY, 0);
    var records := s.records + [r];
    var b' := b.Put(MetadataFile(name), MetaOf(r)).Put(BinlogIndex, Text(IndexText(NamesOf(records))));
    s.(backend := b', records := records, readySeq := 0, incSeq := 0)
  }

  datatype OpenStatus = OpenedEmpty | OpenedAtMagic | OpenedWithData | Created

  ghost function OpenExisting(s: State, name: Name): (State, OpenStatus)
    requires !s.IsEmpty()
    requires PayloadFile(name) in s.backend.disk && s.backend.disk[PayloadFile(name)].Payload?
  {
    var offset := |s.backend.disk[PayloadFile(name)].bytes|;
    var s1 := s.(backend := s.backend.(stream := Some(PayloadFile(name))));
    var (s2, status) :=
      if offset >= MAGIC_OFFSET then (s1, if offset == MAGIC_OFFSET then OpenedAtMagic else OpenedWithData)
      else (s1.(backend := s1.backend.Append(MAGIC),
                records := s1.records[|s1.records| - 1 := s1.Current().(size := MAGIC_OFFSET)]), OpenedEmpty);
    (s2.(readySeq := s2.Current().lastSeq, incSeq := s2.Current().lastSeq), status)
  }

  ghost predicate KnownName(s: State, name: Name) {
    exists i :: 0 <= i < |s.records| && s.records[i].name == name
  }

  /** open_binlog: every thrown exception is Err and leaves the storage as it was. */
  ghost function OpenBinlog(s: State, name: Name, now: nat): Result<(State, OpenStatus)> {
    if s.construction != Streaming then Err
    else if KnownName(s, name) && (s.Current().name != name || s.CurrentPosition() == 0) then Err
    else if s.backend.stream.Some? then Err
    else if !KnownName(s, name) then Ok((UpdateCheckpoint(OpenNew(s, name), now), Created))
    else if PayloadFile(name) !in s.backend.disk || !s.backend.disk[PayloadFile(name)].Payload? then Err
    else
      var (s', status) := OpenExisting(s, name);
      Ok((UpdateCheckpoint(s', now), status))
  }

  /** The asserts at the end of open_binlog. */
  ghost predicate OpenAsserts(s: State) {
    s.buffer == [] && s.boundary == 0 && s.bufGtids == {} && s.readyTs.IsEmpty() && s.incTs.IsEmpty()
  }

  ghost predicate CanFlush(s: State) {
    s.construction == Streaming && !s.IsEmpty() && StreamReady(s) && s.boundary <= |s.buffer|
  }

  /** The current record as a flush rewrites it. */
  ghost function FlushedRecord(s: State): Record
    requires !s.IsEmpty()
  {
    var c := s.Current();
    c.(size := c.size + s.boundary,
       added := if s.mode == GtidBased && c.added.Some? then Some(c.added.value + s.bufGtids) else c.added,
       ts := AddRange(c.ts, s.readyTs),
       lastSeq := s.readySeq)
  }

  ghost function FlushInternal(s: State): State
    requires CanFlush(s)
  {
    var b := s.backend.Append(s.buffer[..s.boundary]);
    var r := FlushedRecord(s);
    s.(backend := b.Put(MetadataFile(r.name), MetaOf(r)),
       records := s.records[|s.records| - 1 := r],
       buffer := s.buffer[s.boundary..], boundary := 0,
       bufGtids := if s.mode == GtidBased then {} else s.bufGtids,
       readyTs := EMPTY)
  }

  ghost function Flush(s: State): State
    requires CanFlush(s) || s.boundary == 0
  {
    if s.boundary != 0 then FlushInternal(s) else s
  }

  /** write_event up to the checkpoint decision. */
  ghost function BufferEvent(s: State, e: Ev): State {
    var buffer := s.buffer + e.bytes;
    var incTs := AddTimestamp(s.incTs, e.ts);
    var incSeq := if e.seqno != 0 then e.seqno else s.incSeq;
    var s1 := s.(buffer := buffer, incTs := incTs, incSeq := incSeq);
    if !e.boundary then s1
    else
      s1.(boundary := |buffer|,
          bufGtids := if s.mode == GtidBased && e.gtid.Some? then s.bufGtids + {e.gtid.value} else s.bufGtids,
          readyTs := AddRange(s.readyTs, incTs), incTs := EMPTY,
          readySeq := incSeq)
  }

  ghost predicate NeedsFlush(s: State, now: nat) {
    || (s.ckptSize != 0 && s.FlushedPosition() + s.boundary >= s.lastCkptPos + s.ckptSize)
    || (s.ckptInterval != 0 && now >= s.lastCkptTime + s.ckptInterval)
  }

  /** The state after a flush at a checkpoint. */
  ghost function Checkpoint(s: State, now: nat): State
    requires CanFlush(s)
  {
    FlushInternal(s).(lastCkptPos := s.FlushedPosition() + s.boundary, lastCkptTime := now)
  }

  ghost function WriteEvent(s: State, e: Ev, now: nat): State
    requires CanFlush(s)
  {
    var s1 := BufferEvent(s, e);
    if s1.boundary != 0 && NeedsFlush(s1, now) then
      Checkpoint(s1, now)
    else s1
  }

  ghost function DiscardIncomplete(s: State): State
    requires s.boundary <= |s.buffer|
  {
    s.(buffer := s.buffer[..s.boundary], incTs := EMPTY, incSeq := s.readySeq)
  }

  /** close_binlog: flushes, drops the incomplete tail, and leaves the incomplete timestamps alone. */
  ghost function CloseBinlog(s: State, now: nat): State
    requires CanFlush(s)
  {
    var s1 := Flush(s).(buffer := []);
    UpdateCheckpoint(s1.(backend := s1.backend.(stream := None)), now)
  }

  // ----- the log a storage stands for --------------------------------------------------

  datatype FileLog = FileLog(name: Name, evs: seq<Ev>)

  /**
   * What has been written: the events of each file that are on disk, the complete transactions
   * still buffered for the last file, and the events of the unfinished one.  `base` is the GTID
   * set that precedes the first file.
   */
  datatype Hist = Hist(base: set<Gtid>, files: seq<FileLog>, ready: seq<Ev>, tail: seq<Ev>, open: bool) {
    ghost function Last(): FileLog
      requires files != []
    {
      files[|files| - 1]
    }

    ghost function Before(): seq<FileLog>
      requires files != []
    {
      files[..|files| - 1]
    }
  }

  ghost function Bytes(evs: seq<Ev>): seq<Byte> {
    if evs == [] then [] else Bytes(evs[..|evs| - 1]) + evs[|evs| - 1].bytes
  }

  ghost function Gtids(evs: seq<Ev>): set<Gtid> {
    set e | e in evs && e.boundary && e.gtid.Some? :: e.gtid.value
  }

  ghost function Stamps(evs: seq<Ev>): seq<int> {
    seq(|evs|, i requires 0 <= i < |evs| => evs[i].ts)
  }

  /** The last non-zero sequence number, or zero. */
  ghost function LastSeq(evs: seq<Ev>): nat {
    if evs == [] then 0
    else if evs[|evs| - 1].seqno != 0 then evs[|evs| - 1].seqno
    else LastSeq(evs[..|evs| - 1])
  }

  /** The base set and the GTIDs of all the given files. */
  ghost function AllGtids(base: set<Gtid>, files: seq<FileLog>): set<Gtid> {
    if files == [] then base
    else AllGtids(base, files[..|files| - 1]) + Gtids(files[|files| - 1].evs)
  }

  /** The metadata a file must have: exact size, GTID sets, timestamps and sequence number. */
  ghost function FileRecord(mode: ReplicationMode, prior: set<Gtid>, f: FileLog): Record {
    Record(f.name, MAGIC_OFFSET + |Bytes(f.evs)|,
           if mode == GtidBased then Some(prior) else None,
           if mode == GtidBased then Some(Gtids(f.evs)) else None,
           RangeOf(Stamps(f.evs)), LastSeq(f.evs))
  }

  /** The records of a list of files; each `previous` set is everything before the file. */
  ghost function RecordsOf(mode: ReplicationMode, base: set<Gtid>, files: seq<FileLog>): (r: seq<Record>)
    ensures |r| == |files|
  {
    if files == [] then []
    else
      var before := files[..|files| - 1];
      RecordsOf(mode, base, before) + [FileRecord(mode, AllGtids(base, before), files[|files| - 1])]
  }

  /** The payload and metadata objects of a list of files. */
  ghost function FilesOnDisk(mode: ReplicationMode, base: set<Gtid>, files: seq<FileLog>): Disk {
    if files == [] then map[StorageMetadata := StorageMeta(mode)]
    else
      var before, f := files[..|files| - 1], files[|files| - 1];
      FilesOnDisk(mode, base, before)
        [PayloadFile(f.name) := Payload(MAGIC + Bytes(f.evs))]
        [MetadataFile(f.name) := MetaOf(FileRecord(mode, AllGtids(base, before), f))]
  }

  ghost function FileNames(files: seq<FileLog>): seq<Name> {
    seq(|files|, i requires 0 <= i < |files| => files[i].name)
  }

  /** The whole disk of a storage: nothing but the files, their metadata, the mode and the index. */
  ghost function DiskOf(mode: ReplicationMode, base: set<Gtid>, files: seq<FileLog>): Disk {
    if files == [] then FilesOnDisk(mode, base, files)
    else FilesOnDisk(mode, base, files)[BinlogIndex := Text(IndexText(FileNames(files)))]
  }

  ghost predicate HasFile(files: seq<FileLog>, name: Name) {
    exists i :: 0 <= i < |files| && files[i].name == name
  }

  ghost predicate DistinctNames(files: seq<FileLog>) {
    forall i, j :: 0 <= i < j < |files| ==> files[i].name != files[j].name
  }

  ghost predicate Complete(evs: seq<Ev>) {
    evs == [] || evs[|evs| - 1].boundary
  }

  ghost predicate NonEmptyEvents(evs: seq<Ev>) {
    forall i :: 0 <= i < |evs| ==> evs[i].bytes != []
  }

  ghost predicate NoBoundary(evs: seq<Ev>) {
    forall i :: 0 <= i < |evs| ==> !evs[i].boundary
  }

  /** A file on disk holds complete transactions only. */
  ghost predicate WholeTransactions(files: seq<FileLog>) {
    forall i :: 0 <= i < |files| ==> Complete(files[i].evs) && NonEmptyEvents(files[i].evs)
  }

  /** Records, disk and stream agree with the log. */
  ghost predicate Durable(s: State, h: Hist) {
    && s.construction == Streaming
    && DistinctNames(h.files) && WholeTransactions(h.files)
    && s.records == RecordsOf(s.mode, h.base, h.files)
    && (h.files == [] ==> h.base == s.purged)
    && s.backend.disk == DiskOf(s.mode, h.base, h.files)
    && s.backend.synced == s.backend.disk
    && (h.open ==> h.files != [])
    && s.backend.stream == if h.open then Some(PayloadFile(h.Last().name)) else None
  }

  /** The buffer and everything derived from it agree with the log, but for the incomplete timestamps. */
  ghost predicate Buffered(s: State, h: Hist) {
    && (!h.open ==> h.ready == [] && h.tail == [])
    && Complete(h.ready) && NoBoundary(h.tail)
    && NonEmptyEvents(h.ready) && NonEmptyEvents(h.tail)
    && s.buffer == Bytes(h.ready) + Bytes(h.tail)
    && s.boundary == |Bytes(h.ready)|
    && s.bufGtids == (if s.mode == GtidBased then Gtids(h.ready) else {})
    && s.readyTs == RangeOf(Stamps(h.ready))
    && (h.open ==>
          && h.files != []
          && s.readySeq == LastSeq(h.Last().evs + h.ready)
          && s.incSeq == LastSeq(h.Last().evs + h.ready + h.tail))
  }

  /** Size checkpointing keeps the complete buffered data below the checkpoint size. */
  ghost predicate CheckpointBound(s: State, h: Hist) {
    s.ckptSize != 0 && h.open ==> s.lastCkptPos <= s.FlushedPosition() && s.boundary < s.ckptSize
  }

  ghost predicate Inv(s: State, h: Hist) {
    && Durable(s, h) && Buffered(s, h) && CheckpointBound(s, h)
    && (h.open ==> s.incTs == RangeOf(Stamps(h.tail)))
    && (s.incTs.IsEmpty() ==> s.incTs == EMPTY)
  }

  // ----- the same operations on the log ------------------------------------------------

  ghost function HistOpen(h: Hist, name: Name): Hist {
    if HasFile(h.files, name) then h.(open := true)
    else h.(files := h.files + [FileLog(name, [])], open := true)
  }

  /** More events at the end of the last file. */
  ghost function Extend(files: seq<FileLog>, more: seq<Ev>): seq<FileLog>
    requires files != []
  {
    var k := |files| - 1;
    files[..k] + [FileLog(files[k].name, files[k].evs + more)]
  }

  ghost function HistFlush(h: Hist): Hist {
    if h.files == [] then h else h.(files := Extend(h.files, h.ready), ready := [])
  }

  ghost function HistBuffer(h: Hist, e: Ev): Hist {
    if e.boundary then h.(ready := h.ready + h.tail + [e], tail := [])
    else h.(tail := h.tail + [e])
  }

  ghost function HistDiscard(h: Hist): Hist {
    h.(tail := [])
  }

  ghost function HistClose(h: Hist): Hist {
    HistFlush(h).(tail := [], open := false)
  }

  // ----- lists of events ---------------------------------------------------------------

  lemma {:induction false} BytesConcat(a: seq<Ev>, b: seq<Ev>)
    ensures Bytes(a + b) == Bytes(a) + Bytes(b)
  {
    if b == [] {
      assert a + b == a;
    } else {
      assert (a + b)[..|a + b| - 1] == a + b[..|b| - 1];
      BytesConcat(a, b[..|b| - 1]);
    }
  }

  lemma BytesOne(e: Ev)
    ensures Bytes([e]) == e.bytes
  {
    assert [e][..0] == [];
    assert Bytes([e]) == Bytes([e][..0]) + e.bytes;
  }

  lemma NoBytes()
    ensures Bytes([]) == []
  {
  }

  lemma GtidsOne(e: Ev)
    ensures Gtids([e]) == if e.boundary && e.gtid.Some? then {e.gtid.value} else {}
  {
  }

  lemma BytesNonEmpty(evs: seq<Ev>)
    requires NonEmptyEvents(evs)
    ensures Bytes(evs) == [] <==> evs == []
  {
  }

  lemma GtidsConcat(a: seq<Ev>, b: seq<Ev>)
    ensures Gtids(a + b) == Gtids(a) + Gtids(b)
  {
    forall e
      ensures e in a + b <==> e in a || e in b
    {
    }
  }

  lemma GtidsOfUnfinished(evs: seq<Ev>)
    requires NoBoundary(evs)
    ensures Gtids(evs) == {}
  {
  }

  lemma StampsConcat(a: seq<Ev>, b: seq<Ev>)
    ensures Stamps(a + b) == Stamps(a) + Stamps(b)
    ensures RangeOf(Stamps(a + b)) == AddRange(RangeOf(Stamps(a)), RangeOf(Stamps(b)))
  {
    assert Stamps(a + b) == Stamps(a) + Stamps(b);
    RangeOfConcat(Stamps(a), Stamps(b));
  }

  lemma StampsSnoc(a: seq<Ev>, e: Ev)
    ensures RangeOf(Stamps(a + [e])) == AddTimestamp(RangeOf(Stamps(a)), e.ts)
  {
    var ts := Stamps(a + [e]);
    assert ts[..|ts| - 1] == Stamps(a);
  }

  lemma LastSeqSnoc(a: seq<Ev>, e: Ev)
    ensures LastSeq(a + [e]) == if e.seqno != 0 then e.seqno else LastSeq(a)
  {
    assert (a + [e])[..|a + [e]| - 1] == a;
  }

  /** LastSeq is the sequence number of some event after which all are zero, or there are only zeros. */
  lemma {:induction false} LastSeqIsLast(evs: seq<Ev>)
    ensures LastSeq(evs) == 0 ==> forall i :: 0 <= i < |evs| ==> evs[i].seqno == 0
    ensures LastSeq(evs) != 0 ==>
      exists i ::
        0 <= i < |evs| && evs[i].seqno == LastSeq(evs) && forall j :: i < j < |evs| ==> evs[j].seqno == 0
  {
    if evs != [] {
      var k := |evs| - 1;
      LastSeqIsLast(evs[..k]);
      assert forall i :: 0 <= i < k ==> evs[..k][i] == evs[i];
      if evs[k].seqno == 0 && LastSeq(evs) != 0 {
        var i :|
          0 <= i < k && evs[..k][i].seqno == LastSeq(evs[..k]) && forall j :: i < j < k ==> evs[..k][j].seqno == 0;
        assert evs[i].seqno == LastSeq(evs);
      }
    }
  }

  // ----- what every operation keeps ----------------------------------------------------

  lemma CanFlushFromInv(s: State, h: Hist)
    requires Durable(s, h) && Buffered(s, h) && h.open
    ensures CanFlush(s)
    ensures s.Current() == FileRecord(s.mode, AllGtids(h.base, h.Before()), h.Last())
    ensures s.backend.disk[PayloadFile(h.Last().name)] == Payload(MAGIC + Bytes(h.Last().evs))
  {
  }

  /** Appending events to the last file changes one payload and one metadata object. */
  lemma AppendToLast(mode: ReplicationMode, base: set<Gtid>, files: seq<FileLog>, more: seq<Ev>)
    requires files != []
    ensures
      var k := |files| - 1;
      var f := FileLog(files[k].name, files[k].evs + more);
      var files' := Extend(files, more);
      var r := FileRecord(mode, AllGtids(base, files[..k]), f);
      && RecordsOf(mode, base, files') == RecordsOf(mode, base, files)[k := r]
      && DiskOf(mode, base, files')
         == DiskOf(mode, base, files)[PayloadFile(f.name) := Payload(MAGIC + Bytes(files[k].evs) + Bytes(more))]
                                     [MetadataFile(f.name) := MetaOf(r)]
  {
    hide IndexText, FileRecord, AllGtids;
    var k := |files| - 1;
    var f := FileLog(files[k].name, files[k].evs + more);
    var files' := files[..k] + [f];
    assert files'[..k] == files[..k];
    BytesConcat(files[k].evs, more);
    assert MAGIC + Bytes(files[k].evs) + Bytes(more) == MAGIC + Bytes(f.evs);
    assert FileNames(files') == FileNames(files);
    var r := FileRecord(mode, AllGtids(base, files[..k]), f);
    LastOnDisk(mode, base, files);
    LastOnDisk(mode, base, files');
    hide DiskOf, Bytes;
    assert RecordsOf(mode, base, files') == RecordsOf(mode, base, files)[k := r];
  }

  /** The last file's objects on top of the others'. */
  lemma LastOnDisk(mode: ReplicationMode, base: set<Gtid>, files: seq<FileLog>)
    requires files != []
    ensures var k := |files| - 1;
      DiskOf(mode, base, files) ==
        FilesOnDisk(mode, base, files[..k])[BinlogIndex := Text(IndexText(FileNames(files)))]
          [PayloadFile(files[k].name) := Payload(MAGIC + Bytes(files[k].evs))]
          [MetadataFile(files[k].name) := MetaOf(FileRecord(mode, AllGtids(base, files[..k]), files[k]))]
  {
    hide IndexText, FileRecord, AllGtids, Bytes;
  }

  lemma FlushedRecordIsExact(s: State, h: Hist)
    requires Durable(s, h) && Buffered(s, h) && h.open
    ensures FlushedRecord(s)
         == FileRecord(s.mode, AllGtids(h.base, h.Before()), FileLog(h.Last().name, h.Last().evs + h.ready))
  {
    CanFlushFromInv(s, h);
    BytesConcat(h.Last().evs, h.ready);
    GtidsConcat(h.Last().evs, h.ready);
    StampsConcat(h.Last().evs, h.ready);
  }

  lemma FlushKeepsFiles(files: seq<FileLog>, more: seq<Ev>)
    requires files != [] && DistinctNames(files) && WholeTransactions(files)
    requires Complete(more) && NonEmptyEvents(more)
    ensures DistinctNames(Extend(files, more)) && WholeTransactions(Extend(files, more))
  {
    var k := |files| - 1;
    var files' := files[..k] + [FileLog(files[k].name, files[k].evs + more)];
    assert forall i :: 0 <= i < |files| ==> files'[i].name == files[i].name;
    assert forall i :: 0 <= i < k ==> files'[i] == files[i];
    assert Complete(files[k].evs + more);
  }

  lemma FlushKeepsDurable(s: State, h: Hist)
    requires Durable(s, h) && Buffered(s, h) && h.open
    ensures CanFlush(s)
    ensures Durable(FlushInternal(s), HistFlush(h))
    ensures FlushInternal(s).FlushedPosition() == s.FlushedPosition() + s.boundary
  {
    CanFlushFromInv(s, h);
    assert s.buffer[..s.boundary] == Bytes(h.ready);
    FlushedRecordIsExact(s, h);
    FlushKeepsFiles(h.files, h.ready);
    AppendToLast(s.mode, h.base, h.files, h.ready);
  }

  lemma FlushKeepsBuffered(s: State, h: Hist)
    requires CanFlush(s) && Buffered(s, h) && h.open
    ensures Buffered(FlushInternal(s), HistFlush(h))
  {
    var h' := HistFlush(h);
    assert s.buffer[s.boundary..] == Bytes(h.tail);
    assert h'.Last().evs + h'.ready == h.Last().evs + h.ready;
    assert Bytes(h'.ready) == [];
    assert Stamps(h'.ready) == [];
  }

  lemma BufferKeepsSequence(s: State, h: Hist, e: Ev)
    requires Buffered(s, h) && h.open
    ensures var s', h' := BufferEvent(s, e), HistBuffer(h, e);
      && s'.readySeq == LastSeq(h'.Last().evs + h'.ready)
      && s'.incSeq == LastSeq(h'.Last().evs + h'.ready + h'.tail)
  {
    var f := h.Last().evs;
    LastSeqSnoc(f + h.ready + h.tail, e);
    assert f + (h.ready + h.tail + [e]) == (f + h.ready + h.tail) + [e];
    assert f + (h.ready + h.tail + [e]) + [] == (f + h.ready + h.tail) + [e];
    assert f + h.ready + (h.tail + [e]) == (f + h.ready + h.tail) + [e];
  }

  lemma BufferKeeps(s: State, h: Hist, e: Ev)
    requires Buffered(s, h) && h.open && e.bytes != [] && s.incTs == RangeOf(Stamps(h.tail))
    ensures Buffered(BufferEvent(s, e), HistBuffer(h, e))
    ensures BufferEvent(s, e).incTs == RangeOf(Stamps(HistBuffer(h, e).tail))
  {
    hide Bytes, Gtids, LastSeq, AddRange, AddTimestamp;
    var all := h.tail + [e];
    BytesConcat(h.tail, [e]);
    BytesOne(e);
    NoBytes();
    StampsSnoc(h.tail, e);
    BufferKeepsSequence(s, h, e);
    if e.boundary {
      BytesConcat(h.ready, all);
      StampsConcat(h.ready, all);
      GtidsConcat(h.ready, all);
      GtidsConcat(h.tail, [e]);
      GtidsOfUnfinished(h.tail);
      GtidsOne(e);
      assert h.ready + all == h.ready + h.tail + [e];
      assert BufferEvent(s, e).buffer == Bytes(h.ready + all) + Bytes([]);
    }
  }

  lemma CheckpointKeeps(s: State, h: Hist, now: nat)
    requires Durable(s, h) && Buffered(s, h) && h.open && s.incTs == RangeOf(Stamps(h.tail))
    ensures CanFlush(s)
    ensures Inv(Checkpoint(s, now), HistFlush(h))
    ensures var s' := Checkpoint(s, now);
      s'.boundary == 0 && s'.lastCkptPos == s'.FlushedPosition() && s'.lastCkptTime == now
  {
    FlushKeepsDurable(s, h);
    FlushKeepsBuffered(s, h);
    var s1 := FlushInternal(s);
    StampsEmptyIff(h.tail);
    assert Durable(Checkpoint(s, now), HistFlush(h));
    assert Buffered(Checkpoint(s, now), HistFlush(h));
  }

  lemma BufferKeepsDurable(s: State, h: Hist, e: Ev)
    requires Durable(s, h)
    ensures Durable(BufferEvent(s, e), HistBuffer(h, e))
    ensures var s' := BufferEvent(s, e);
      && s'.ckptSize == s.ckptSize && s'.lastCkptPos == s.lastCkptPos
      && s'.ckptInterval == s.ckptInterval && s'.lastCkptTime == s.lastCkptTime
      && s'.FlushedPosition() == s.FlushedPosition() && s'.backend == s.backend
  {
  }

  /**
   * There is a complete transaction in the buffer, and the complete data of the file have grown by the checkpoint size
   * since the last checkpoint or the checkpoint interval has passed since then.
   */
  ghost predicate Due(s: State, h: Hist, now: nat)
    requires h.files != []
  {
    && h.ready != []
    && (|| (s.ckptSize > 0 && MAGIC_OFFSET + |Bytes(h.Last().evs + h.ready)| - s.lastCkptPos >= s.ckptSize)
        || (s.ckptInterval > 0 && now - s.lastCkptTime >= s.ckptInterval))
  }

  lemma DueIff(s: State, h: Hist, now: nat)
    requires Durable(s, h) && Buffered(s, h) && h.open
    ensures Due(s, h, now) <==> s.boundary != 0 && NeedsFlush(s, now)
  {
    BytesNonEmpty(h.ready);
    BytesConcat(h.Last().evs, h.ready);
  }

  /** write_event keeps the invariant: a buffering step, followed by a flush iff a checkpoint is due. */
  lemma WriteKeeps(s: State, h: Hist, e: Ev, now: nat)
    requires Inv(s, h) && h.open && e.bytes != []
    ensures CanFlush(s) && h.files != []
    ensures var (s', h1) := (WriteEvent(s, e, now), HistBuffer(h, e));
      if Due(s, h1, now) then
        && Inv(s', HistFlush(h1)) && s'.boundary == 0
        && s'.lastCkptPos == s'.FlushedPosition() && s'.lastCkptTime == now
      else
        Inv(s', h1) && s'.backend == s.backend && s'.lastCkptPos == s.lastCkptPos && s'.lastCkptTime == s.lastCkptTime
  {
    hide Durable, Buffered, HistFlush, Checkpoint, Bytes, NeedsFlush, Due, CanFlush;
    CanFlushFromInv(s, h);
    var s1, h1 := BufferEvent(s, e), HistBuffer(h, e);
    BufferKeeps(s, h, e);
    BufferKeepsDurable(s, h, e);
    hide BufferEvent;
    DueIff(s1, h1, now);
    SameDue(s, s1, h1, now);
    CheckpointKeeps(s1, h1, now);
    if !Due(s1, h1, now) {
      NotDueBound(s, s1, h, h1, now);
      StampsEmptyIff(h1.tail);
    }
  }

  lemma SameDue(s: State, s1: State, h: Hist, now: nat)
    requires s1.ckptSize == s.ckptSize && s1.ckptInterval == s.ckptInterval && h.files != []
    requires s1.lastCkptPos == s.lastCkptPos && s1.lastCkptTime == s.lastCkptTime
    ensures Due(s1, h, now) <==> Due(s, h, now)
  {
  }

  lemma NotDueBound(s: State, s1: State, h: Hist, h1: Hist, now: nat)
    requires CheckpointBound(s, h) && h.open == h1.open && h1.files != [] && !(s1.boundary != 0 && NeedsFlush(s1, now))
    requires s1.ckptSize == s.ckptSize && s1.lastCkptPos == s.lastCkptPos && s1.FlushedPosition() == s.FlushedPosition()
    ensures CheckpointBound(s1, h1)
  {
  }

  lemma NothingToFlush(s: State, h: Hist)
    requires Buffered(s, h) && s.boundary == 0
    ensures HistFlush(h) == h
  {
    BytesNonEmpty(h.ready);
    if h.files != [] {
      assert h.Last().evs + [] == h.Last().evs;
      assert h.Before() + [h.Last()] == h.files;
    }
  }

  lemma FlushOpKeeps(s: State, h: Hist)
    requires Inv(s, h)
    ensures CanFlush(s) || s.boundary == 0
    ensures Inv(Flush(s), HistFlush(h)) && Flush(s).boundary == 0
    ensures h.ready == [] ==> Flush(s) == s
  {
    NoBytes();
    if s.boundary != 0 {
      FlushKeepsDurable(s, h);
      FlushKeepsBuffered(s, h);
    } else {
      NothingToFlush(s, h);
    }
  }

  lemma DiscardKeeps(s: State, h: Hist)
    requires Inv(s, h)
    ensures s.boundary <= |s.buffer|
    ensures Inv(DiscardIncomplete(s), HistDiscard(h))
  {
    assert s.buffer[..s.boundary] == Bytes(h.ready) + Bytes([]);
    if h.open {
      assert h.Last().evs + h.ready + [] == h.Last().evs + h.ready;
    }
  }

  /** close_binlog keeps the invariant, and leaves behind the timestamps of the events it dropped. */
  lemma CloseKeeps(s: State, h: Hist, now: nat)
    requires Inv(s, h) && h.open
    ensures CanFlush(s)
    ensures Inv(CloseBinlog(s, now), HistClose(h))
    ensures CloseBinlog(s, now).incTs == RangeOf(Stamps(h.tail))
  {
    CanFlushFromInv(s, h);
    FlushOpKeeps(s, h);
    if s.boundary == 0 {
      BytesNonEmpty(h.ready);
    }
    assert Bytes([]) == [];
  }

  lemma StampsEmptyIff(evs: seq<Ev>)
    ensures RangeOf(Stamps(evs)).IsEmpty() <==> forall i :: 0 <= i < |evs| ==> evs[i].ts == 0
    ensures RangeOf(Stamps(evs)).IsEmpty() ==> RangeOf(Stamps(evs)) == EMPTY
  {
    RangeOfIsExact(Stamps(evs));
    assert forall i :: 0 <= i < |evs| ==> Stamps(evs)[i] == evs[i].ts;
  }

  /** get_gtids telescopes: the base set and the GTIDs of all files together. */
  lemma GetGtidsTelescopes(s: State, h: Hist)
    requires Durable(s, h)
    ensures s.GetGtids() == if s.mode == GtidBased then AllGtids(h.base, h.files) else {}
  {
  }

  /** Record i is made from file i and everything before it. */
  lemma {:induction false} RecordAt(mode: ReplicationMode, base: set<Gtid>, files: seq<FileLog>, i: nat)
    requires i < |files|
    ensures RecordsOf(mode, base, files)[i] == FileRecord(mode, AllGtids(base, files[..i]), files[i])
  {
    var k := |files| - 1;
    if i < k {
      RecordAt(mode, base, files[..k], i);
      assert files[..k][..i] == files[..i];
    }
  }

  lemma {:induction false} RecordNames(mode: ReplicationMode, base: set<Gtid>, files: seq<FileLog>)
    ensures NamesOf(RecordsOf(mode, base, files)) == FileNames(files)
    ensures forall i :: 0 <= i < |files| ==> RecordsOf(mode, base, files)[i].name == files[i].name
  {
    if files != [] {
      var k := |files| - 1;
      RecordNames(mode, base, files[..k]);
      var r := RecordsOf(mode, base, files);
      assert forall i :: 0 <= i < |files| ==> r[i].name == files[i].name;
    }
  }

  lemma KnownNames(s: State, h: Hist, name: Name)
    requires Durable(s, h)
    ensures KnownName(s, name) <==> HasFile(h.files, name)
  {
    RecordNames(s.mode, h.base, h.files);
    assert forall i :: 0 <= i < |h.files| ==> s.records[i].name == h.files[i].name;
  }

  /** Creating a file adds one payload and one metadata object and rewrites the index. */
  lemma AddFile(mode: ReplicationMode, base: set<Gtid>, files: seq<FileLog>, name: Name)
    ensures
      var files' := files + [FileLog(name, [])];
      var r := FileRecord(mode, AllGtids(base, files), FileLog(name, []));
      && r == Record(name, MAGIC_OFFSET, if mode == GtidBased then Some(AllGtids(base, files)) else None,
                     if mode == GtidBased then Some({}) else None, EMPTY, 0)
      && RecordsOf(mode, base, files') == RecordsOf(mode, base, files) + [r]
      && DiskOf(mode, base, files')
         == DiskOf(mode, base, files)[PayloadFile(name) := Payload(MAGIC)]
                                     [MetadataFile(name) := MetaOf(r)]
                                     [BinlogIndex := Text(IndexText(FileNames(files')))]
  {
    var f := FileLog(name, []);
    var files' := files + [f];
    assert files'[..|files|] == files;
    assert MAGIC + Bytes([]) == MAGIC;
    assert Stamps([]) == [];
    assert RangeOf([]) == EMPTY;
    assert Gtids([]) == {};
  }

  lemma OpenNewKeeps(s: State, h: Hist, name: Name, now: nat)
    requires Inv(s, h) && !h.open && !HasFile(h.files, name)
    ensures OpenBinlog(s, name, now).Ok? && OpenBinlog(s, name, now).value.1 == Created
    ensures OpenAsserts(OpenBinlog(s, name, now).value.0) <==> s.incTs.IsEmpty()
    ensures s.incTs.IsEmpty() ==> Inv(OpenBinlog(s, name, now).value.0, HistOpen(h, name))
  {
    hide IndexText, DiskOf, RecordsOf, AllGtids;
    KnownNames(s, h, name);
    GetGtidsTelescopes(s, h);
    AddFile(s.mode, h.base, h.files, name);
    var s', h' := OpenNew(s, name), HistOpen(h, name);
    RecordNames(s.mode, h.base, h'.files);
    assert [] + MAGIC == MAGIC;
    assert s'.records == RecordsOf(s.mode, h.base, h'.files);
    var d := s.backend.disk;
    var p := PayloadFile(name);
    assert d[p := Payload([])][p := Payload(MAGIC)] == d[p := Payload(MAGIC)];
    assert s'.backend.disk == DiskOf(s.mode, h.base, h'.files);
    assert h'.Last() == FileLog(name, []);
  }

  lemma OpenExistingKeeps(s: State, h: Hist, now: nat)
    requires Inv(s, h) && !h.open && h.files != []
    ensures OpenBinlog(s, h.Last().name, now).Ok?
    ensures OpenBinlog(s, h.Last().name, now).value.1 == if h.Last().evs == [] then OpenedAtMagic else OpenedWithData
    ensures OpenAsserts(OpenBinlog(s, h.Last().name, now).value.0) <==> s.incTs.IsEmpty()
    ensures s.incTs.IsEmpty() ==> Inv(OpenBinlog(s, h.Last().name, now).value.0, HistOpen(h, h.Last().name))
    // the two asserts of open_existing_binlog_file_internal
    ensures PayloadFile(h.Last().name) in s.backend.disk
    ensures s.backend.disk[PayloadFile(h.Last().name)].Payload?
    ensures s.CurrentPosition() == |s.backend.disk[PayloadFile(h.Last().name)].bytes| >= MAGIC_OFFSET
  {
    KnownNames(s, h, h.Last().name);
    BytesNonEmpty(h.Last().evs);
    assert h.Last().evs + [] == h.Last().evs;
    assert s.Current() == FileRecord(s.mode, AllGtids(h.base, h.Before()), h.Last());
  }

  /** Any other open_binlog call throws: a binlog is already open, or the name is not the last one. */
  lemma OpenOtherFails(s: State, h: Hist, name: Name, now: nat)
    requires Inv(s, h)
    requires h.open || (HasFile(h.files, name) && h.Last().name != name)
    ensures OpenBinlog(s, name, now).Err?
  {
    KnownNames(s, h, name);
    if h.files != [] {
      assert s.Current() == FileRecord(s.mode, AllGtids(h.base, h.Before()), h.Last());
    }
  }
}
