/** The storage and its backend as the mutable objects they are, proved against StorageModel, Recovery and Purge. */
module StorageClass {
  import opened Prelude
  import opened BinlogNames
  import opened TimestampRange
  import M = StorageModel
  import R = Recovery
  import P = Purge

  type Disk = M.Disk

  /** basic_storage_backend: a map of objects and at most one open stream. */
  class StorageBackend {
    var disk: Disk
    var stream: Option<ObjectName>
    ghost var synced: Disk
    ghost var trace: seq<M.Snap>

    ghost function View(): M.Backend
      reads this
    {
      M.Backend(disk, synced, stream, trace)
    }

    constructor (disk: Disk)
      ensures View() == M.Backend(disk, disk, None, [])
    {
      this.disk, stream, synced, trace := disk, None, disk, [];
    }

    method PutObject(name: ObjectName, content: M.Object)
      modifies this
      ensures View() == old(View()).Put(name, content)
    {
      disk := disk[name := content];
      trace := trace + [M.Snap(disk, synced), M.Snap(disk, disk)];
      synced := disk;
    }

    /** open_stream in create mode. */
    method CreateStream(name: ObjectName) returns (ok: bool)
      modifies this
      ensures ok <==> old(stream).None?
      ensures View() == if ok then old(View()).Create(name) else old(View())
    {
      ok := stream.None?;
      if ok {
        disk := disk[name := M.Payload([])];
        stream := Some(name);
        trace := trace + [M.Snap(disk, synced)];
      }
    }

    /** open_stream in append mode on an existing payload. */
    method AppendStream(name: ObjectName) returns (r: Result<nat>)
      modifies this
      ensures r.Ok? <==> old(stream).None? && name in old(disk) && old(disk)[name].Payload?
      ensures r.Ok? ==> r.value == |old(disk)[name].bytes|
      ensures View() == if r.Ok? then old(View()).(stream := Some(name)) else old(View())
    {
      if stream.Some? || name !in disk || !disk[name].Payload? {
        return Err;
      }
      stream := Some(name);
      r := Ok(|disk[name].bytes|);
    }

    method WriteDataToStream(data: seq<Byte>)
      requires stream.Some? && stream.value in disk && disk[stream.value].Payload?
      modifies this
      ensures View() == old(View()).Append(data)
    {
      disk := disk[stream.value := M.Payload(disk[stream.value].bytes + data)];
      trace := trace + [M.Snap(disk, synced)];
    }

    method CloseStream() returns (ok: bool)
      modifies this
      ensures ok <==> old(stream).Some?
      ensures View() == old(View()).(stream := None)
    {
      ok := stream.Some?;
      stream := None;
    }

    /** remove_objects: every name is tried, the first failure is remembered, the barrier always runs. */
    method RemoveObjects(names: seq<ObjectName>, refusing: set<ObjectName>) returns (firstError: Option<ObjectName>)
      modifies this
      ensures View() == P.Barrier(P.RemoveAll(old(View()), names, refusing))
      ensures firstError.Some? <==> P.AnyError(old(View()), names, refusing)
      ensures firstError.Some? ==> firstError.value in names
    {
      firstError := None;
      ghost var b := View();
      for i := 0 to |names|
        invariant View() == P.RemoveAll(b, names[..i], refusing)
        invariant firstError.Some? <==> P.AnyError(b, names[..i], refusing)
        invariant firstError.Some? ==> firstError.value in names
      {
        assert names[..i + 1][..i] == names[..i];
        if names[i] in refusing || names[i] !in disk {
          if firstError.None? {
            firstError := Some(names[i]);
          }
        } else {
          disk := disk - {names[i]};
          trace := trace + [M.Snap(disk, synced)];
        }
      }
      assert names[..|names|] == names;
      synced := disk;
      trace := trace + [M.Snap(disk, disk)];
    }
  }

  lemma {:induction false} IndexTextSnoc(names: seq<Name>, n: Name)
    ensures IndexText(names + [n]) == IndexText(names) + "./" + Str(n) + "\n"
  {
    hide Str;
    if names == [] {
      assert IndexText([n]) == "./" + Str(n) + "\n" + IndexText([n][1..]);
    } else {
      assert (names + [n])[1..] == names[1..] + [n];
      IndexTextSnoc(names[1..], n);
      Regroup("./" + Str(names[0]) + "\n", IndexText(names[1..]), "./", Str(n), "\n");
    }
  }

  lemma Regroup(a: string, b: string, c: string, d: string, e: string)
    ensures a + (b + c + d + e) == a + b + c + d + e
  {
  }

  lemma IndexTextEmpty()
    ensures IndexText([]) == ""
  {
  }

  lemma {:induction false} LoadRecordsFails(d: Disk, mode: ReplicationMode, names: seq<Name>, n: nat)
    requires n <= |names| && R.LoadRecords(d, mode, names[..n]).None?
    ensures R.LoadRecords(d, mode, names).None?
  {
    if n == |names| {
      assert names[..n] == names;
    } else {
      assert names[..|names| - 1][..n] == names[..n];
      LoadRecordsFails(d, mode, names[..|names| - 1], n);
    }
  }

  lemma PayloadsOf(d: Disk, names: seq<Name>)
    ensures forall i :: 0 <= i < |names| ==>
      (PayloadFile(names[i]) in R.PayloadObjects(d) <==> PayloadFile(names[i]) in d)
  {
  }

  lemma BufferedCanFlush(s: M.State, e: M.Ev)
    requires M.CanFlush(s)
    ensures M.CanFlush(M.BufferEvent(s, e))
  {
  }

  class BinlogStorage {
    const construction: M.ConstructionMode
    const mode: ReplicationMode
    const checkpointSize: nat
    const checkpointInterval: nat
    const backend: StorageBackend

    var records: seq<M.Record>
    var purgedGtids: set<Gtid>
    var lastCheckpointPosition: nat
    var lastCheckpointTime: nat
    var eventBuffer: seq<Byte>
    var boundary: nat
    var gtidsInBuffer: set<Gtid>
    var readyTimestamps: Range
    var incompleteTimestamps: Range
    var readySequence: nat
    var incompleteSequence: nat

    ghost function View(): M.State
      reads this, backend
    {
      M.State(construction, mode, checkpointSize, checkpointInterval, backend.View(), records, purgedGtids,
              lastCheckpointPosition, lastCheckpointTime, eventBuffer, boundary, gtidsInBuffer,
              readyTimestamps, incompleteTimestamps, readySequence, incompleteSequence)
    }

    /** The members before the body of the constructor runs; Initialize is that body. */
    constructor (backend: StorageBackend, construction: M.ConstructionMode, mode: ReplicationMode,
                 checkpointSize: nat, checkpointInterval: nat)
      ensures this.backend == backend && this.construction == construction && this.mode == mode
      ensures View() == M.State(construction, mode, checkpointSize, checkpointInterval, backend.View(), [], {},
                                0, 0, [], 0, {}, EMPTY, EMPTY, 0, 0)
    {
      this.backend, this.construction, this.mode := backend, construction, mode;
      this.checkpointSize, this.checkpointInterval := checkpointSize, checkpointInterval;
      records, purgedGtids := [], {};
      lastCheckpointPosition, lastCheckpointTime := 0, 0;
      eventBuffer, boundary, gtidsInBuffer := [], 0, {};
      readyTimestamps, incompleteTimestamps := EMPTY, EMPTY;
      readySequence, incompleteSequence := 0, 0;
    }

    // ----- construction ----------------------------------------------------------------

    /** load_binlog_index. */
    method LoadBinlogIndex(text: string) returns (r: Result<seq<Name>>)
      ensures r == LoadIndex(text, [])
    {
      var rest, names := text, [];
      while rest != ""
        invariant LoadIndex(rest, names) == LoadIndex(text, [])
        decreases |rest|
      {
        var k := IndexOf(rest, '\n');
        var line := rest[..k];
        rest := if k < |rest| then rest[k + 1..] else "";
        if line != "" {
          var entry := ParseLine(line);
          if entry.None? || entry.value in names {
            return Err;
          }
          names := names + [entry.value];
        }
      }
      r := Ok(names);
    }

    /** The loop that moves per-file metadata objects into a container of their own. */
    method SortObjects(d: Disk) returns (payloads: set<ObjectName>, metadata: set<ObjectName>)
      ensures payloads == R.PayloadObjects(d) && metadata == R.MetadataObjects(d)
    {
      payloads, metadata := {}, {};
      var remaining := d.Keys - {StorageMetadata, BinlogIndex};
      while remaining != {}
        invariant remaining <= d.Keys - {StorageMetadata, BinlogIndex}
        invariant payloads == set k | k in d.Keys - remaining && R.IsPayloadObject(k)
        invariant metadata == set k | k in d.Keys - remaining && R.IsMetadataObject(k)
        decreases |remaining|
      {
        var k :| k in remaining;
        remaining := remaining - {k};
        if R.IsMetadataObject(k) {
          metadata := metadata + {k};
        } else {
          payloads := payloads + {k};
        }
      }
    }

    /** The loop of validate_binlog_index. */
    method AllPresent(names: seq<Name>, payloads: set<ObjectName>) returns (ok: bool)
      ensures ok <==> forall i :: 0 <= i < |names| ==> PayloadFile(names[i]) in payloads
    {
      for i := 0 to |names|
        invariant forall j :: 0 <= j < i ==> PayloadFile(names[j]) in payloads
      {
        if PayloadFile(names[i]) !in payloads {
          return false;
        }
      }
      ok := true;
    }

    /** load_and_validate_binlog_metadata_set, record by record. */
    method LoadMetadataSet(d: Disk, names: seq<Name>) returns (r: Option<seq<M.Record>>)
      ensures r == R.LoadRecords(d, mode, names)
    {
      var loaded := [];
      for i := 0 to |names|
        invariant R.LoadRecords(d, mode, names[..i]) == Some(loaded)
      {
        assert names[..i + 1][..i] == names[..i];
        var record := R.LoadRecord(d, mode, names[i]);
        if record.None? {
          LoadRecordsFails(d, mode, names, i + 1);
          return None;
        }
        loaded := loaded + [record.value];
      }
      assert names[..|names|] == names;
      r := Some(loaded);
    }

    /** The constructor: accepts, refuses and ends up exactly as Recovery.Load says. */
    method Initialize() returns (ok: bool)
      requires !R.Load(backend.disk, mode, construction).Undefined?
      requires records == [] && purgedGtids == {}
      modifies this`records, this`purgedGtids, backend
      ensures ok <==> R.Load(old(backend.disk), mode, construction).Opened?
      ensures ok ==> R.Load(old(backend.disk), mode, construction) == R.Opened(records, purgedGtids, backend.disk)
      ensures !ok ==> View() == old(View())
    {
      hide LoadIndex, R.LoadRecords, R.PayloadObjects, R.MetadataObjects;
      var d := backend.disk;
      if d == map[] {
        if construction.Streaming? {
          backend.PutObject(StorageMetadata, M.StorageMeta(mode));
        }
        return true;
      }
      if StorageMetadata !in d || d[StorageMetadata] != M.StorageMeta(mode) {
        return false;
      }
      if d.Keys == {StorageMetadata} {
        return true;
      }
      if BinlogIndex !in d || !d[BinlogIndex].Text? {
        return false;
      }
      var payloads, metadata := SortObjects(d);
      var index := LoadBinlogIndex(d[BinlogIndex].text);
      if index.Err? {
        return false;
      }
      var allPresent := AllPresent(index.value, payloads);
      if !allPresent {
        PayloadsOf(d, index.value);
        return false;
      }
      PayloadsOf(d, index.value);
      if |payloads| != |index.value| {
        return false;
      }
      var loaded := LoadMetadataSet(d, index.value);
      if loaded.None? || |metadata| != |index.value| {
        return false;
      }
      records := loaded.value;
      purgedGtids := if records[0].added.Some? then records[0].added.value else {};
      ok := true;
    }

    // ----- streaming -------------------------------------------------------------------

    method UpdateLastCheckpointInfo(now: nat)
      modifies this`lastCheckpointPosition, this`lastCheckpointTime
      ensures View() == M.UpdateCheckpoint(old(View()), now)
    {
      if checkpointSize != 0 {
        lastCheckpointPosition := (if records == [] then 0 else records[|records| - 1].size) + |eventBuffer|;
      }
      if checkpointInterval != 0 {
        lastCheckpointTime := now;
      }
    }

    method SaveBinlogMetadata(record: M.Record)
      modifies backend
      ensures backend.View() == old(backend.View()).Put(MetadataFile(record.name), M.MetaOf(record))
    {
      backend.PutObject(MetadataFile(record.name), M.MetaOf(record));
    }

    method SaveBinlogIndex()
      modifies backend
      ensures backend.View() == old(backend.View()).Put(BinlogIndex, M.Text(IndexText(M.NamesOf(records))))
    {
      hide IndexText;
      var content := "";
      ghost var names := M.NamesOf(records);
      assert IndexText(names[..0]) == "" by {
        IndexTextEmpty();
      }
      for i := 0 to |records|
        invariant content == IndexText(names[..i])
        invariant unchanged(this) && unchanged(backend)
      {
        assert names[..i + 1] == names[..i] + [names[i]];
        IndexTextSnoc(names[..i], names[i]);
        content := content + "./" + Str(records[i].name) + "\n";
      }
      assert names[..|records|] == names;
      backend.PutObject(BinlogIndex, M.Text(content));
    }

    method GetGtids() returns (r: set<Gtid>)
      ensures r == View().GetGtids()
    {
      if mode != GtidBased {
        return {};
      }
      if records == [] {
        return purgedGtids;
      }
      var current := records[|records| - 1];
      r := if current.previous.Some? then current.previous.value else {};
      if current.added.Some? {
        r := r + current.added.value;
      }
    }

    method OpenNewBinlogFile(name: Name)
      requires backend.stream == Some(PayloadFile(name)) && PayloadFile(name) in backend.disk
      requires backend.disk[PayloadFile(name)].Payload?
      modifies this`records, backend
      ensures
        var b := old(backend.View()).Append(MAGIC);
        var s := old(View());
        var r := M.Record(name, MAGIC_OFFSET, if mode == GtidBased then Some(s.GetGtids()) else None,
                          if mode == GtidBased then Some({}) else None, EMPTY, 0);
        && records == old(records) + [r]
        && backend.View()
           == b.Put(MetadataFile(name), M.MetaOf(r)).Put(BinlogIndex, M.Text(IndexText(M.NamesOf(records))))
    {
      backend.WriteDataToStream(MAGIC);
      var previous, added: Option<set<Gtid>> := None, None;
      if mode == GtidBased {
        var gtids := GetGtids();
        previous, added := Some(gtids), Some({});
      }
      records := records + [M.Record(name, MAGIC_OFFSET, previous, added, EMPTY, 0)];
      SaveBinlogMetadata(records[|records| - 1]);
      SaveBinlogIndex();
    }

    method OpenExistingBinlogFile(offset: nat) returns (status: M.OpenStatus)
      requires records != [] && M.StreamReady(View())
      modifies this`records, backend
      ensures offset >= MAGIC_OFFSET ==> View() == old(View())
      ensures offset >= MAGIC_OFFSET ==> status == if offset == MAGIC_OFFSET then M.OpenedAtMagic else M.OpenedWithData
      ensures offset < MAGIC_OFFSET ==> status == M.OpenedEmpty && backend.View() == old(backend.View()).Append(MAGIC)
      ensures offset < MAGIC_OFFSET ==>
                records == old(records)[|old(records)| - 1 := old(records)[|old(records)| - 1].(size := MAGIC_OFFSET)]
    {
      if offset >= MAGIC_OFFSET {
        return if offset == MAGIC_OFFSET then M.OpenedAtMagic else M.OpenedWithData;
      }
      backend.WriteDataToStream(MAGIC);
      records := records[|records| - 1 := records[|records| - 1].(size := MAGIC_OFFSET)];
      status := M.OpenedEmpty;
    }

    method FindName(name: Name) returns (found: bool)
      ensures found <==> M.KnownName(View(), name)
    {
      found := false;
      for i := 0 to |records|
        invariant found <==> exists j :: 0 <= j < i && records[j].name == name
      {
        if records[i].name == name {
          found := true;
        }
      }
    }

    /** open_binlog for the last file. */
    method ReopenLast(now: nat) returns (r: Result<M.OpenStatus>)
      requires records != []
      modifies this, backend
      ensures var s, name := old(View()), old(records)[|old(records)| - 1].name;
        if s.backend.stream.Some? || PayloadFile(name) !in s.backend.disk
           || !s.backend.disk[PayloadFile(name)].Payload? then
          r.Err? && View() == s
        else
          && r == Ok(M.OpenExisting(s, name).1)
          && View() == M.UpdateCheckpoint(M.OpenExisting(s, name).0, now)
    {
      hide M.UpdateCheckpoint;
      var name := records[|records| - 1].name;
      var offset := backend.AppendStream(PayloadFile(name));
      if offset.Err? {
        return Err;
      }
      var status := OpenExistingBinlogFile(offset.value);
      readySequence := records[|records| - 1].lastSeq;
      incompleteSequence := readySequence;
      UpdateLastCheckpointInfo(now);
      r := Ok(status);
    }

    /** open_binlog for a new file. */
    method CreateNext(name: Name, now: nat) returns (ok: bool)
      modifies this, backend
      ensures ok <==> old(backend.stream).None?
      ensures View() == if ok then M.UpdateCheckpoint(M.OpenNew(old(View()), name), now) else old(View())
    {
      hide IndexText;
      ok := backend.CreateStream(PayloadFile(name));
      if !ok {
        return;
      }
      OpenNewBinlogFile(name);
      readySequence, incompleteSequence := 0, 0;
      UpdateLastCheckpointInfo(now);
    }

    method OpenBinlog(name: Name, now: nat) returns (r: Result<M.OpenStatus>)
      modifies this, backend
      ensures r.Ok? <==> M.OpenBinlog(old(View()), name, now).Ok?
      ensures r.Ok? ==> (View(), r.value) == M.OpenBinlog(old(View()), name, now).value
      ensures r.Err? ==> View() == old(View())
    {
      hide M.OpenNew, M.OpenExisting, M.UpdateCheckpoint;
      if !construction.Streaming? {
        return Err;
      }
      var known := FindName(name);
      if known {
        var current := records[|records| - 1];
        if current.name != name || current.size + |eventBuffer| == 0 {
          return Err;
        }
        r := ReopenLast(now);
      } else {
        var ok := CreateNext(name, now);
        r := if ok then Ok(M.Created) else Err;
      }
    }

    method FlushEventBufferInternal()
      requires M.CanFlush(View())
      modifies this`records, this`eventBuffer, this`boundary, this`gtidsInBuffer, this`readyTimestamps, backend
      ensures View() == M.FlushInternal(old(View()))
    {
      backend.WriteDataToStream(eventBuffer[..boundary]);
      var record := records[|records| - 1];
      record := record.(size := record.size + boundary);
      if mode == GtidBased && record.added.Some? {
        record := record.(added := Some(record.added.value + gtidsInBuffer));
      }
      record := record.(ts := AddRange(record.ts, readyTimestamps), lastSeq := readySequence);
      records := records[|records| - 1 := record];
      SaveBinlogMetadata(record);
      eventBuffer := eventBuffer[boundary..];
      boundary := 0;
      if mode == GtidBased {
        gtidsInBuffer := {};
      }
      readyTimestamps := EMPTY;
    }

    /** write_event up to the checkpoint decision. */
    method BufferEvent(data: seq<Byte>, atBoundary: bool, gtid: Option<Gtid>, timestamp: int, sequenceNumber: nat)
      modifies this
      ensures View() == M.BufferEvent(old(View()), M.Ev(data, atBoundary, gtid, timestamp, sequenceNumber))
    {
      eventBuffer := eventBuffer + data;
      incompleteTimestamps := AddTimestamp(incompleteTimestamps, timestamp);
      if sequenceNumber != 0 {
        incompleteSequence := sequenceNumber;
      }
      if atBoundary {
        boundary := |eventBuffer|;
        if mode == GtidBased && gtid.Some? {
          gtidsInBuffer := gtidsInBuffer + {gtid.value};
        }
        readyTimestamps := AddRange(readyTimestamps, incompleteTimestamps);
        incompleteTimestamps := EMPTY;
        readySequence := incompleteSequence;
      }
    }

    method WriteEvent(data: seq<Byte>, atBoundary: bool, gtid: Option<Gtid>, timestamp: int, sequenceNumber: nat,
                      now: nat)
      requires M.CanFlush(View())
      modifies this, backend
      ensures View() == M.WriteEvent(old(View()), M.Ev(data, atBoundary, gtid, timestamp, sequenceNumber), now)
    {
      hide M.FlushInternal;
      ghost var e := M.Ev(data, atBoundary, gtid, timestamp, sequenceNumber);
      BufferEvent(data, atBoundary, gtid, timestamp, sequenceNumber);
      BufferedCanFlush(old(View()), e);
      hide M.BufferEvent;
      if boundary != 0 {
        var readyPosition := records[|records| - 1].size + boundary;
        if || (checkpointSize != 0 && readyPosition >= lastCheckpointPosition + checkpointSize)
           || (checkpointInterval != 0 && now >= lastCheckpointTime + checkpointInterval)
        {
          FlushEventBufferInternal();
          lastCheckpointPosition := readyPosition;
          lastCheckpointTime := now;
        }
      }
    }

    method FlushEventBuffer()
      requires M.CanFlush(View()) || boundary == 0
      modifies this, backend
      ensures View() == M.Flush(old(View()))
    {
      if boundary != 0 {
        FlushEventBufferInternal();
      }
    }

    method DiscardIncompleteTransactionEvents()
      requires boundary <= |eventBuffer|
      modifies this
      ensures View() == M.DiscardIncomplete(old(View()))
    {
      eventBuffer := eventBuffer[..boundary];
      incompleteTimestamps := EMPTY;
      incompleteSequence := readySequence;
    }

    method CloseBinlog(now: nat)
      requires M.CanFlush(View())
      modifies this, backend
      ensures View() == M.CloseBinlog(old(View()), now)
    {
      FlushEventBuffer();
      eventBuffer := [];
      var ok := backend.CloseStream();
      UpdateLastCheckpointInfo(now);
    }

    // ----- purging ---------------------------------------------------------------------

    method PurgeBinlogs(target: Name, refusing: set<ObjectName>) returns (r: Result<(seq<M.Record>, bool)>)
      modifies this`records, backend
      ensures r.Ok? <==> P.PurgeBinlogs(old(View()), target, refusing).Ok?
      ensures r.Ok? ==> View() == P.PurgeBinlogs(old(View()), target, refusing).value.state
      ensures r.Ok? ==> r.value.0 == P.PurgeBinlogs(old(View()), target, refusing).value.removed
      ensures r.Ok? ==> r.value.1 == P.PurgeBinlogs(old(View()), target, refusing).value.warning
      ensures r.Err? ==> View() == old(View())
    {
      if !construction.Purging? || records == [] || records[0].name.base != target.base {
        return Err;
      }
      var k := P.IndexOfName(records, target);
      if k == |records| || k == |records| - 1 {
        return Err;
      }
      var removed := records[..k + 1];
      records := records[k + 1..];
      SaveBinlogIndex();
      var victims := [];
      for i := 0 to |removed|
        invariant victims == P.VictimObjects(removed[..i])
      {
        assert removed[..i + 1][..i] == removed[..i];
        victims := victims + [MetadataFile(removed[i].name), PayloadFile(removed[i].name)];
      }
      assert removed[..|removed|] == removed;
      var firstError := backend.RemoveObjects(victims, refusing);
      r := Ok((removed, firstError.Some?));
    }
  }
}
