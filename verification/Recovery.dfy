/**
 * The storage constructor as a function of the disk, and what it accepts after a crash.
 *
 * A crash image may lack any directory entry that was not yet fsynced, may still hold any entry
 * whose removal or replacement was not yet fsynced, and may hold any payload cut to any prefix,
 * because stream writes are never fsynced.
 */
module Recovery {
  import opened Prelude
  import opened BinlogNames
  import opened TimestampRange
  import opened StorageModel

  // ----- the constructor ---------------------------------------------------------------

  datatype Outcome =
    | Refused
    | Undefined // front() on an empty record list
    | Opened(records: seq<Record>, purged: set<Gtid>, disk: Disk)

  predicate IsMetadataObject(k: ObjectName) {
    k.MetadataFile? || (k.Foreign? && HasJsonExtension(k.text))
  }

  predicate IsPayloadObject(k: ObjectName) {
    k.PayloadFile? || (k.Foreign? && !HasJsonExtension(k.text))
  }

  function PayloadObjects(d: Disk): set<ObjectName> {
    set k | k in d && IsPayloadObject(k)
  }

  function MetadataObjects(d: Disk): set<ObjectName> {
    set k | k in d && IsMetadataObject(k)
  }

  /** load_binlog_metadata with its checks: present, GTID sets as the mode demands, size as listed. */
  function LoadRecord(d: Disk, mode: ReplicationMode, n: Name): Option<Record> {
    if MetadataFile(n) !in d || !d[MetadataFile(n)].FileMeta? then None
    else
      var m := d[MetadataFile(n)];
      if m.previous.Some? != (mode == GtidBased) || m.added.Some? != (mode == GtidBased) then None
      else if PayloadFile(n) !in d || !d[PayloadFile(n)].Payload? || |d[PayloadFile(n)].bytes| != m.size then None
      else Some(Record(n, m.size, m.previous, m.added, FromBounds(m.minTs, m.maxTs), m.lastSeq))
  }

  function LoadRecords(d: Disk, mode: ReplicationMode, names: seq<Name>): (r: Option<seq<Record>>)
    ensures r.Some? ==> |r.value| == |names|
  {
    if names == [] then Some([])
    else
      var before := LoadRecords(d, mode, names[..|names| - 1]);
      var last := LoadRecord(d, mode, names[|names| - 1]);
      if before.None? || last.None? then None else Some(before.value + [last.value])
  }

  /** The constructor in streaming or purging mode. */
  function Load(d: Disk, mode: ReplicationMode, construction: ConstructionMode): Outcome {
    if d == map[] then
      Opened([], {}, if construction == Streaming then d[StorageMetadata := StorageMeta(mode)] else d)
    else if StorageMetadata !in d || d[StorageMetadata] != StorageMeta(mode) then Refused
    else if d.Keys == {StorageMetadata} then Opened([], {}, d)
    else if BinlogIndex !in d || !d[BinlogIndex].Text? then Refused
    else
      var index := LoadIndex(d[BinlogIndex].text, []);
      if index.Err? then Refused
      else if exists i :: 0 <= i < |index.value| && PayloadFile(index.value[i]) !in d then Refused
      else if |PayloadObjects(d)| != |index.value| then Refused
      else
        var records := LoadRecords(d, mode, index.value);
        if records.None? || |MetadataObjects(d)| != |index.value| then Refused
        else if index.value == [] then Undefined
        else
          var first := records.value[0].added;
          Opened(records.value, if first.Some? then first.value else {}, d)
  }

  // ----- crashes -----------------------------------------------------------------------

  ghost predicate Cut(a: Object, b: Object) {
    a == b || (a.Payload? && b.Payload? && a.bytes <= b.bytes)
  }

  ghost predicate CrashImage(snap: Snap, img: Disk) {
    && snap.disk.Keys * snap.synced.Keys <= img.Keys <= snap.disk.Keys + snap.synced.Keys
    && forall k :: k in img ==>
         || (k in snap.disk && Cut(img[k], snap.disk[k]))
         || (k in snap.synced && Cut(img[k], snap.synced[k]))
  }

  // ----- disks of logs -----------------------------------------------------------------

  ghost function PayloadNames(files: seq<FileLog>): set<ObjectName> {
    if files == [] then {} else PayloadNames(files[..|files| - 1]) + {PayloadFile(files[|files| - 1].name)}
  }

  ghost function MetadataNames(files: seq<FileLog>): set<ObjectName> {
    if files == [] then {} else MetadataNames(files[..|files| - 1]) + {MetadataFile(files[|files| - 1].name)}
  }

  lemma {:induction false} InNames(files: seq<FileLog>, k: ObjectName)
    ensures k in PayloadNames(files) <==> k.PayloadFile? && HasFile(files, k.name)
    ensures k in MetadataNames(files) <==> k.MetadataFile? && HasFile(files, k.name)
  {
    if files != [] {
      var j := |files| - 1;
      InNames(files[..j], k);
      assert forall i :: 0 <= i < j ==> files[..j][i] == files[i];
    }
  }

  lemma {:induction false} NameSetSizes(files: seq<FileLog>)
    requires DistinctNames(files)
    ensures |PayloadNames(files)| == |files| && |MetadataNames(files)| == |files|
  {
    if files != [] {
      var j := |files| - 1;
      NameSetSizes(files[..j]);
      InNames(files[..j], PayloadFile(files[j].name));
      InNames(files[..j], MetadataFile(files[j].name));
    }
  }

  ghost function FilePayload(f: FileLog): Object {
    Payload(MAGIC + Bytes(f.evs))
  }

  /** FilesOnDisk read object by object. */
  ghost predicate Holds(d: Disk, files: seq<FileLog>, records: seq<Record>)
    requires |records| == |files|
  {
    forall i :: 0 <= i < |files| ==>
      && PayloadFile(files[i].name) in d && d[PayloadFile(files[i].name)] == FilePayload(files[i])
      && MetadataFile(files[i].name) in d && d[MetadataFile(files[i].name)] == MetaOf(records[i])
  }

  lemma {:induction false} FileOnDisk(mode: ReplicationMode, base: set<Gtid>, files: seq<FileLog>, i: nat)
    requires DistinctNames(files) && i < |files|
    ensures var d := FilesOnDisk(mode, base, files);
      && PayloadFile(files[i].name) in d && d[PayloadFile(files[i].name)] == FilePayload(files[i])
      && MetadataFile(files[i].name) in d && d[MetadataFile(files[i].name)] == MetaOf(RecordsOf(mode, base, files)[i])
  {
    var k := |files| - 1;
    if i < k {
      FileOnDisk(mode, base, files[..k], i);
    }
  }

  lemma {:induction false} KeysOnDisk(mode: ReplicationMode, base: set<Gtid>, files: seq<FileLog>)
    ensures FilesOnDisk(mode, base, files).Keys == {StorageMetadata} + PayloadNames(files) + MetadataNames(files)
    ensures FilesOnDisk(mode, base, files)[StorageMetadata] == StorageMeta(mode)
  {
    if files != [] {
      KeysOnDisk(mode, base, files[..|files| - 1]);
    }
  }

  lemma DiskOfHolds(mode: ReplicationMode, base: set<Gtid>, files: seq<FileLog>)
    requires DistinctNames(files)
    ensures var d := DiskOf(mode, base, files);
      && d.Keys == {StorageMetadata} + (if files == [] then {} else {BinlogIndex})
                   + PayloadNames(files) + MetadataNames(files)
      && d[StorageMetadata] == StorageMeta(mode)
      && (files != [] ==> d[BinlogIndex] == Text(IndexText(FileNames(files))))
      && Holds(d, files, RecordsOf(mode, base, files))
  {
    hide FilesOnDisk, RecordsOf, IndexText;
    KeysOnDisk(mode, base, files);
    forall i | 0 <= i < |files|
      ensures var d := DiskOf(mode, base, files);
        && PayloadFile(files[i].name) in d && d[PayloadFile(files[i].name)] == FilePayload(files[i])
        && MetadataFile(files[i].name) in d && d[MetadataFile(files[i].name)] == MetaOf(RecordsOf(mode, base, files)[i])
    {
      FileOnDisk(mode, base, files, i);
    }
  }

  /** Keys, mode, index and file objects determine the disk. */
  lemma DiskIsDetermined(d: Disk, mode: ReplicationMode, base: set<Gtid>, files: seq<FileLog>)
    requires DistinctNames(files) && files != []
    requires d.Keys == {StorageMetadata, BinlogIndex} + PayloadNames(files) + MetadataNames(files)
    requires d[StorageMetadata] == StorageMeta(mode)
    requires d[BinlogIndex] == Text(IndexText(FileNames(files)))
    requires Holds(d, files, RecordsOf(mode, base, files))
    ensures d == DiskOf(mode, base, files)
  {
    hide DiskOf, RecordsOf, IndexText;
    var e := DiskOf(mode, base, files);
    DiskOfHolds(mode, base, files);
    forall k | k in d
      ensures d[k] == e[k]
    {
      InNames(files, k);
      if k.PayloadFile? || k.MetadataFile? {
        var i :| 0 <= i < |files| && files[i].name == k.name;
        assert d[PayloadFile(files[i].name)] == FilePayload(files[i]);
      }
    }
  }

  lemma SubsetOfSameSize<T>(a: set<T>, b: set<T>)
    requires a <= b && |a| == |b|
    ensures a == b
  {
    if a != b {
      var x :| x in b && x !in a;
      assert a <= b - {x};
      SubsetSize(a, b - {x});
    }
  }

  lemma SubsetSize<T>(a: set<T>, b: set<T>)
    requires a <= b
    ensures |a| <= |b|
  {
    if x :| x in a {
      SubsetSize(a - {x}, b - {x});
    }
  }

  // ----- loading a log's disk ----------------------------------------------------------

  /** A record survives the trip through its metadata object. */
  lemma LoadRecordOf(d: Disk, mode: ReplicationMode, base: set<Gtid>, files: seq<FileLog>, i: nat)
    requires i < |files| && Holds(d, files, RecordsOf(mode, base, files))
    ensures LoadRecord(d, mode, files[i].name) == Some(RecordsOf(mode, base, files)[i])
  {
    RecordAt(mode, base, files, i);
    BoundsRoundTrip(Stamps(files[i].evs));
    assert |FilePayload(files[i]).bytes| == MAGIC_OFFSET + |Bytes(files[i].evs)|;
  }

  lemma {:induction false} LoadRecordsOf(d: Disk, mode: ReplicationMode, base: set<Gtid>, files: seq<FileLog>, n: nat)
    requires n <= |files| && Holds(d, files, RecordsOf(mode, base, files))
    ensures LoadRecords(d, mode, FileNames(files)[..n]) == Some(RecordsOf(mode, base, files)[..n])
  {
    hide LoadRecord, RecordsOf, Holds;
    if n != 0 {
      var names, records := FileNames(files), RecordsOf(mode, base, files);
      LoadRecordsOf(d, mode, base, files, n - 1);
      LoadRecordOf(d, mode, base, files, n - 1);
      assert names[..n][..n - 1] == names[..n - 1];
      assert records[..n] == records[..n - 1] + [records[n - 1]];
    }
  }

  ghost predicate NewlineFree(files: seq<FileLog>) {
    forall i :: 0 <= i < |files| ==> SingleLine(files[i].name)
  }

  lemma IndexOfFiles(files: seq<FileLog>)
    requires DistinctNames(files)
    ensures LoadIndex(IndexText(FileNames(files)), []) == if NewlineFree(files) then Ok(FileNames(files)) else Err
  {
    hide LoadIndex, IndexText, SingleLine;
    var names := FileNames(files);
    IndexRoundTrip(names);
    assert forall i :: 0 <= i < |files| ==> names[i] == files[i].name;
    if NewlineFree(files) {
      forall n | n in names
        ensures SingleLine(n)
      {
        var i :| 0 <= i < |names| && names[i] == n;
        assert SingleLine(files[i].name);
      }
    } else {
      var i :| 0 <= i < |files| && !SingleLine(files[i].name);
      assert names[i] in names;
    }
  }

  /** In every storage the saved index exists iff there are files; it is not empty and lists them in order. */
  lemma SavedIndex(s: State, h: Hist)
    requires Inv(s, h)
    ensures BinlogIndex in s.backend.disk <==> s.records != []
    ensures s.records != [] ==>
      && s.backend.disk[BinlogIndex].Text? && s.backend.disk[BinlogIndex].text != ""
      && LoadIndex(s.backend.disk[BinlogIndex].text, []) == if NewlineFree(h.files) then Ok(NamesOf(s.records)) else Err
  {
    hide LoadIndex, FilesOnDisk, Bytes, DistinctNames, WholeTransactions;
    DiskOfHolds(s.mode, h.base, h.files);
    IndexOfFiles(h.files);
    RecordNames(s.mode, h.base, h.files);
    InNames(h.files, BinlogIndex);
  }

  lemma ObjectsOfDisk(mode: ReplicationMode, base: set<Gtid>, files: seq<FileLog>)
    requires DistinctNames(files)
    ensures PayloadObjects(DiskOf(mode, base, files)) == PayloadNames(files)
    ensures MetadataObjects(DiskOf(mode, base, files)) == MetadataNames(files)
  {
    hide DiskOf, PayloadNames, MetadataNames, RecordsOf, IndexText, HasFile, DistinctNames;
    DiskOfHolds(mode, base, files);
    forall k
      ensures k in PayloadNames(files) ==> k.PayloadFile?
      ensures k in MetadataNames(files) ==> k.MetadataFile?
    {
      InNames(files, k);
    }
  }

  /** A storage that was left at rest reopens with the same records, unless a name holds a newline. */
  lemma LoadOfDisk(mode: ReplicationMode, base: set<Gtid>, files: seq<FileLog>, construction: ConstructionMode)
    requires DistinctNames(files) && files != []
    ensures var d := DiskOf(mode, base, files);
      var purged := if mode == GtidBased then Gtids(files[0].evs) else {};
      Load(d, mode, construction)
      == if NewlineFree(files) then Opened(RecordsOf(mode, base, files), purged, d) else Refused
  {
    hide LoadIndex, IndexText, DiskOf, RecordsOf, LoadRecords, LoadRecord, PayloadObjects, MetadataObjects, Bytes,
      PayloadNames, MetadataNames, SingleLine;
    var d := DiskOf(mode, base, files);
    var names := FileNames(files);
    DiskOfHolds(mode, base, files);
    ObjectsOfDisk(mode, base, files);
    IndexOfFiles(files);
    NameSetSizes(files);
    assert forall i :: 0 <= i < |files| ==> names[i] == files[i].name;
    LoadRecordsOf(d, mode, base, files, |files|);
    assert names[..|files|] == names;
    RecordAt(mode, base, files, 0);
    assert files[..0] == [];
    assert RecordsOf(mode, base, files)[..|files|] == RecordsOf(mode, base, files);
    assert d.Keys != {StorageMetadata} by {
      assert BinlogIndex in d.Keys;
    }
    if NewlineFree(files) {
      assert forall i :: 0 <= i < |names| ==> PayloadFile(names[i]) in d;
    }
  }

  // ----- what an accepted image must be ------------------------------------------------

  /** The object of file i in img: its metadata unchanged, its payload some prefix of an extension. */
  ghost predicate Compatible(img: Disk, f: FileLog, r: Record) {
    && (MetadataFile(f.name) in img ==> img[MetadataFile(f.name)] == MetaOf(r))
    && (PayloadFile(f.name) in img ==>
          img[PayloadFile(f.name)].Payload? &&
          (|| img[PayloadFile(f.name)].bytes <= FilePayload(f).bytes
           || FilePayload(f).bytes <= img[PayloadFile(f.name)].bytes))
  }

  lemma {:induction false} LoadedRecordsCome(d: Disk, mode: ReplicationMode, names: seq<Name>, i: nat)
    requires i < |names| && LoadRecords(d, mode, names).Some?
    ensures LoadRecord(d, mode, names[i]).Some?
  {
    if i < |names| - 1 {
      LoadedRecordsCome(d, mode, names[..|names| - 1], i);
    }
  }

  lemma AcceptedFile(img: Disk, mode: ReplicationMode, f: FileLog, r: Record)
    requires Compatible(img, f, r) && LoadRecord(img, mode, f.name).Some?
    requires r.size == MAGIC_OFFSET + |Bytes(f.evs)|
    ensures PayloadFile(f.name) in img && img[PayloadFile(f.name)] == FilePayload(f)
    ensures MetadataFile(f.name) in img && img[MetadataFile(f.name)] == MetaOf(r)
  {
    var a, b := img[PayloadFile(f.name)].bytes, FilePayload(f).bytes;
    assert |a| == |b|;
    assert a == b;
  }

  /** n listed payloads among n payload objects leave no room for an orphan; the same for metadata. */
  lemma OnlyListedObjects(img: Disk, files: seq<FileLog>)
    requires DistinctNames(files) && StorageMetadata in img && BinlogIndex in img
    requires forall i :: 0 <= i < |files| ==> PayloadFile(files[i].name) in img && MetadataFile(files[i].name) in img
    requires |PayloadObjects(img)| == |files| && |MetadataObjects(img)| == |files|
    ensures img.Keys == {StorageMetadata, BinlogIndex} + PayloadNames(files) + MetadataNames(files)
  {
    hide PayloadNames, MetadataNames, DistinctNames;
    NameSetSizes(files);
    forall k | k in PayloadNames(files)
      ensures k in PayloadObjects(img)
    {
      InNames(files, k);
      var i :| 0 <= i < |files| && files[i].name == k.name;
    }
    forall k | k in MetadataNames(files)
      ensures k in MetadataObjects(img)
    {
      InNames(files, k);
      var i :| 0 <= i < |files| && files[i].name == k.name;
    }
    SubsetOfSameSize(PayloadNames(files), PayloadObjects(img));
    SubsetOfSameSize(MetadataNames(files), MetadataObjects(img));
    forall k | k in img
      ensures k in {StorageMetadata, BinlogIndex} + PayloadNames(files) + MetadataNames(files)
    {
      assert IsPayloadObject(k) ==> k in PayloadObjects(img);
      assert IsMetadataObject(k) ==> k in MetadataObjects(img);
    }
  }

  /**
   * The counting argument.  If the index lists the given files and their objects are compatible,
   * an accepted image is exactly the disk of those files: all objects present, no orphan left,
   * every payload whole.
   */
  lemma AcceptedImage(img: Disk, mode: ReplicationMode, base: set<Gtid>, files: seq<FileLog>,
                      construction: ConstructionMode)
    requires DistinctNames(files) && files != []
    requires BinlogIndex in img && img[BinlogIndex] == Text(IndexText(FileNames(files)))
    requires forall i :: 0 <= i < |files| ==> Compatible(img, files[i], RecordsOf(mode, base, files)[i])
    requires !Load(img, mode, construction).Refused?
    ensures img == DiskOf(mode, base, files)
  {
    hide LoadIndex, IndexText, SingleLine, DiskOf, RecordsOf, PayloadObjects, MetadataObjects, LoadRecord, LoadRecords;
    var names := FileNames(files);
    IndexOfFiles(files);
    assert LoadIndex(img[BinlogIndex].text, []) == Ok(names);
    assert forall i :: 0 <= i < |files| ==> names[i] == files[i].name;
    forall i | 0 <= i < |files|
      ensures PayloadFile(files[i].name) in img && img[PayloadFile(files[i].name)] == FilePayload(files[i])
      ensures MetadataFile(files[i].name) in img
      ensures img[MetadataFile(files[i].name)] == MetaOf(RecordsOf(mode, base, files)[i])
    {
      LoadedRecordsCome(img, mode, names, i);
      RecordAt(mode, base, files, i);
      AcceptedFile(img, mode, files[i], RecordsOf(mode, base, files)[i]);
    }
    OnlyListedObjects(img, files);
    DiskIsDetermined(img, mode, base, files);
  }

  // ----- exactly which directories are accepted ----------------------------------------

  /** Metadata with GTID sets iff the mode has them, and a payload of the recorded size. */
  ghost predicate GoodPair(d: Disk, mode: ReplicationMode, n: Name) {
    && MetadataFile(n) in d && d[MetadataFile(n)].FileMeta? && PayloadFile(n) in d && d[PayloadFile(n)].Payload?
    && var m := d[MetadataFile(n)];
       && |d[PayloadFile(n)].bytes| == m.size
       && (m.previous.Some? <==> mode == GtidBased) && (m.added.Some? <==> mode == GtidBased)
  }

  /** The mode, an index and good pairs of objects for exactly the files it lists; nothing else. */
  ghost predicate Consistent(d: Disk, mode: ReplicationMode, names: seq<Name>) {
    && StorageMetadata in d && d[StorageMetadata] == StorageMeta(mode)
    && BinlogIndex in d && d[BinlogIndex].Text? && LoadIndex(d[BinlogIndex].text, []) == Ok(names) && names != []
    && (forall i :: 0 <= i < |names| ==> GoodPair(d, mode, names[i]))
    && forall k :: k in d ==> k in {StorageMetadata, BinlogIndex} || (IsPair(k) && k.name in names)
  }

  predicate IsPair(k: ObjectName) {
    k.PayloadFile? || k.MetadataFile?
  }

  lemma LoadRecordIff(d: Disk, mode: ReplicationMode, n: Name)
    ensures LoadRecord(d, mode, n).Some? <==> GoodPair(d, mode, n)
  {
  }

  lemma {:induction false} LoadRecordsIff(d: Disk, mode: ReplicationMode, names: seq<Name>)
    ensures LoadRecords(d, mode, names).Some? <==> forall i :: 0 <= i < |names| ==> GoodPair(d, mode, names[i])
    ensures LoadRecords(d, mode, names).Some? ==>
      forall i :: 0 <= i < |names| ==> LoadRecord(d, mode, names[i]) == Some(LoadRecords(d, mode, names).value[i])
  {
    hide LoadRecord, GoodPair;
    if names != [] {
      var k := |names| - 1;
      LoadRecordsIff(d, mode, names[..k]);
      LoadRecordIff(d, mode, names[k]);
      assert forall i :: 0 <= i < k ==> names[..k][i] == names[i];
    }
  }

  ghost function Empties(names: seq<Name>): (files: seq<FileLog>)
    ensures |files| == |names| && forall i :: 0 <= i < |names| ==> files[i].name == names[i]
  {
    seq(|names|, i requires 0 <= i < |names| => FileLog(names[i], []))
  }

  /** With as many payload and metadata objects as listed files there are no others, and the other way round. */
  lemma CountsIff(d: Disk, names: seq<Name>)
    requires Distinct(names) && StorageMetadata in d && BinlogIndex in d
    requires forall i :: 0 <= i < |names| ==> PayloadFile(names[i]) in d && MetadataFile(names[i]) in d
    ensures |PayloadObjects(d)| == |names| && |MetadataObjects(d)| == |names|
      <==> forall k :: k in d ==> k in {StorageMetadata, BinlogIndex} || (IsPair(k) && k.name in names)
  {
    hide PayloadObjects, MetadataObjects;
    var files := Empties(names);
    NameSetSizes(files);
    forall k: ObjectName
      ensures k in PayloadNames(files) <==> k.PayloadFile? && k.name in names
      ensures k in MetadataNames(files) <==> k.MetadataFile? && k.name in names
    {
      ListedNames(names, k);
    }
    hide PayloadNames, MetadataNames;
    if |PayloadObjects(d)| == |names| && |MetadataObjects(d)| == |names| {
      OnlyListedObjects(d, files);
    } else if forall k :: k in d ==> k in {StorageMetadata, BinlogIndex} || (IsPair(k) && k.name in names) {
      ObjectsAre(d, names, files);
    }
  }

  lemma ListedNames(names: seq<Name>, k: ObjectName)
    ensures k in PayloadNames(Empties(names)) <==> k.PayloadFile? && k.name in names
    ensures k in MetadataNames(Empties(names)) <==> k.MetadataFile? && k.name in names
  {
    hide PayloadNames, MetadataNames;
    var files := Empties(names);
    InNames(files, k);
    if IsPair(k) {
      assert HasFile(files, k.name) <==> k.name in names;
    }
  }

  lemma ObjectsAre(d: Disk, names: seq<Name>, files: seq<FileLog>)
    requires forall i :: 0 <= i < |names| ==> PayloadFile(names[i]) in d && MetadataFile(names[i]) in d
    requires forall k :: k in d ==> k in {StorageMetadata, BinlogIndex} || (IsPair(k) && k.name in names)
    requires forall k: ObjectName :: k in PayloadNames(files) <==> k.PayloadFile? && k.name in names
    requires forall k: ObjectName :: k in MetadataNames(files) <==> k.MetadataFile? && k.name in names
    ensures PayloadObjects(d) == PayloadNames(files) && MetadataObjects(d) == MetadataNames(files)
  {
    hide PayloadNames, MetadataNames;
  }

  lemma DistinctIndex(text: string, names: seq<Name>)
    requires LoadIndex(text, []) == Ok(names)
    ensures Distinct(names)
  {
    hide LoadIndex, Lines, IsEntry;
    IndexIff(text, names);
  }

  /**
   * A directory is accepted iff it is empty, or holds the right mode and nothing else, or is consistent.  The records
   * are then those of the listed files, in order, and nothing on disk changes but that the mode is saved in a new one.
   */
  lemma LoadAcceptsIff(d: Disk, mode: ReplicationMode, construction: ConstructionMode)
    ensures Load(d, mode, construction).Opened?
      <==> d == map[] || d == map[StorageMetadata := StorageMeta(mode)] || exists names :: Consistent(d, mode, names)
    ensures forall names :: Consistent(d, mode, names) ==>
      Load(d, mode, construction).Opened? && Listed(d, mode, names, Load(d, mode, construction))
    ensures d == map[] || d == map[StorageMetadata := StorageMeta(mode)] ==>
      Load(d, mode, construction)
      == Opened([], {}, if construction == Streaming then map[StorageMetadata := StorageMeta(mode)] else d)
  {
    hide LoadIndex, LoadRecords, PayloadObjects, MetadataObjects, GoodPair;
    forall names | Consistent(d, mode, names)
      ensures Load(d, mode, construction).Opened? && Listed(d, mode, names, Load(d, mode, construction))
    {
      ConsistentLoads(d, mode, construction, names);
    }
    if Load(d, mode, construction).Opened? && d != map[] && d.Keys != {StorageMetadata} {
      LoadedConsistent(d, mode, construction);
    } else if d.Keys == {StorageMetadata} {
      assert d == map[StorageMetadata := d[StorageMetadata]];
    }
  }

  /** The records of these files, as their metadata say. */
  ghost predicate Listed(d: Disk, mode: ReplicationMode, names: seq<Name>, o: Outcome)
    requires o.Opened?
  {
    && o.disk == d && |o.records| == |names|
    && forall i :: 0 <= i < |names| ==> LoadRecord(d, mode, names[i]) == Some(o.records[i])
  }

  lemma PairsThere(d: Disk, mode: ReplicationMode, names: seq<Name>)
    requires forall i :: 0 <= i < |names| ==> GoodPair(d, mode, names[i])
    ensures forall i :: 0 <= i < |names| ==> PayloadFile(names[i]) in d && MetadataFile(names[i]) in d
  {
  }

  lemma ConsistentLoads(d: Disk, mode: ReplicationMode, construction: ConstructionMode, names: seq<Name>)
    requires Consistent(d, mode, names)
    ensures Load(d, mode, construction).Opened? && Listed(d, mode, names, Load(d, mode, construction))
  {
    hide LoadIndex, LoadRecords, PayloadObjects, MetadataObjects, GoodPair, LoadRecord;
    DistinctIndex(d[BinlogIndex].text, names);
    PairsThere(d, mode, names);
    CountsIff(d, names);
    LoadRecordsIff(d, mode, names);
    assert d.Keys != {StorageMetadata} by { assert BinlogIndex in d.Keys; }
  }

  lemma LoadedConsistent(d: Disk, mode: ReplicationMode, construction: ConstructionMode)
    requires Load(d, mode, construction).Opened? && d != map[] && d.Keys != {StorageMetadata}
    ensures exists names :: Consistent(d, mode, names)
  {
    hide LoadIndex, LoadRecords, PayloadObjects, MetadataObjects, GoodPair, LoadRecord;
    var names := LoadIndex(d[BinlogIndex].text, []).value;
    DistinctIndex(d[BinlogIndex].text, names);
    LoadRecordsIff(d, mode, names);
    PairsThere(d, mode, names);
    CountsIff(d, names);
    assert Consistent(d, mode, names);
  }
}
