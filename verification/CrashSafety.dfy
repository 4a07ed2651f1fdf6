/** What a restart finds after a crash at any point of any storage operation, and after a purge. */
module CrashSafety {
  import opened Prelude
  import opened BinlogNames
  import opened TimestampRange
  import opened StorageModel
  import opened StorageRuns
  import opened Recovery

  /** Every object of img is a (possibly cut) object of one of the two disks. */
  ghost predicate Mixture(img: Disk, a: Disk, b: Disk) {
    forall k :: k in img ==> (k in a && Cut(img[k], a[k])) || (k in b && Cut(img[k], b[k]))
  }

  /** Apart from the index, the two disks agree wherever both have an object. */
  ghost predicate AgreeOffIndex(a: Disk, b: Disk) {
    forall k :: k in a && k in b && k != BinlogIndex ==> a[k] == b[k]
  }

  lemma MixtureCompatible(img: Disk, mode: ReplicationMode, base: set<Gtid>, files: seq<FileLog>, other: Disk, i: nat)
    requires DistinctNames(files) && i < |files|
    requires AgreeOffIndex(DiskOf(mode, base, files), other)
    requires Mixture(img, DiskOf(mode, base, files), other)
    ensures Compatible(img, files[i], RecordsOf(mode, base, files)[i])
  {
    hide DiskOf, RecordsOf;
    DiskOfHolds(mode, base, files);
    var d := DiskOf(mode, base, files);
    var p, m := PayloadFile(files[i].name), MetadataFile(files[i].name);
    assert d[p] == FilePayload(files[i]) && d[m] == MetaOf(RecordsOf(mode, base, files)[i]);
    if p in img {
      assert Cut(img[p], d[p]);
    }
    if m in img {
      assert Cut(img[m], d[m]);
    }
  }

  /** A mixture of two storages that differ in their file lists is accepted only as one of the two. */
  lemma AcceptedMixture(img: Disk, mode: ReplicationMode, construction: ConstructionMode,
                        baseA: set<Gtid>, a: seq<FileLog>, baseB: set<Gtid>, b: seq<FileLog>)
    requires DistinctNames(a) && DistinctNames(b) && b != []
    requires AgreeOffIndex(DiskOf(mode, baseA, a), DiskOf(mode, baseB, b))
    requires Mixture(img, DiskOf(mode, baseA, a), DiskOf(mode, baseB, b))
    requires StorageMetadata in img && (a != [] ==> BinlogIndex in img)
    requires !Load(img, mode, construction).Refused?
    ensures img == DiskOf(mode, baseA, a) || img == DiskOf(mode, baseB, b)
  {
    hide LoadIndex, DiskOf, RecordsOf, LoadRecords, PayloadObjects, MetadataObjects, Compatible, IndexText;
    var dA, dB := DiskOf(mode, baseA, a), DiskOf(mode, baseB, b);
    DiskOfHolds(mode, baseA, a);
    DiskOfHolds(mode, baseB, b);
    if BinlogIndex !in img {
      assert img.Keys == {StorageMetadata};
      assert a == [] && img == dA;
    } else if img[BinlogIndex] == Text(IndexText(FileNames(b))) {
      forall i | 0 <= i < |b|
        ensures Compatible(img, b[i], RecordsOf(mode, baseB, b)[i])
      {
        MixtureCompatible(img, mode, baseB, b, dA, i);
      }
      AcceptedImage(img, mode, baseB, b, construction);
    } else {
      assert a != [] && img[BinlogIndex] == Text(IndexText(FileNames(a)));
      forall i | 0 <= i < |a|
        ensures Compatible(img, a[i], RecordsOf(mode, baseA, a)[i])
      {
        MixtureCompatible(img, mode, baseA, a, dB, i);
      }
      AcceptedImage(img, mode, baseA, a, construction);
    }
  }

  // ----- crashes inside one call -------------------------------------------------------

  /** The disk before the call, or any disk it passes through. */
  ghost predicate CrashPoint(s: State, s': State, snap: Snap) {
    || snap == Snap(s.backend.disk, s.backend.synced)
    || (s.backend.trace <= s'.backend.trace && snap in s'.backend.trace[|s.backend.trace|..])
  }

  lemma AtRestImage(img: Disk, mode: ReplicationMode, base: set<Gtid>, files: seq<FileLog>,
                    construction: ConstructionMode)
    requires DistinctNames(files)
    requires CrashImage(Snap(DiskOf(mode, base, files), DiskOf(mode, base, files)), img)
    requires !Load(img, mode, construction).Refused?
    ensures img == DiskOf(mode, base, files)
  {
    hide LoadIndex, DiskOf, RecordsOf, Load, IndexText;
    DiskOfHolds(mode, base, files);
    var d := DiskOf(mode, base, files);
    if files != [] {
      AcceptedMixture(img, mode, construction, base, files, base, files);
    } else {
      assert PayloadNames(files) == {} && MetadataNames(files) == {};
    }
  }

  /** During a flush only the last file's payload and metadata may be old or new. */
  ghost predicate FlushMixture(img: Disk, mode: ReplicationMode, base: set<Gtid>, files: seq<FileLog>, more: seq<Ev>)
    requires files != []
  {
    && img.Keys == DiskOf(mode, base, files).Keys
    && Mixture(img, DiskOf(mode, base, files), DiskOf(mode, base, Extend(files, more)))
  }

  lemma PrefixesCompare(x: seq<Byte>, y: seq<Byte>, z: seq<Byte>)
    requires x <= z && y <= z
    ensures x <= y || y <= x
  {
  }

  lemma ExtendedNames(files: seq<FileLog>, more: seq<Ev>)
    requires files != [] && DistinctNames(files)
    ensures |Extend(files, more)| == |files| && DistinctNames(Extend(files, more))
    ensures FileNames(Extend(files, more)) == FileNames(files)
    ensures forall i :: 0 <= i < |files| ==> Extend(files, more)[i].name == files[i].name
  {
    var e := Extend(files, more);
    assert forall i :: 0 <= i < |files| ==> e[i].name == files[i].name;
  }

  lemma ExtendedFile(mode: ReplicationMode, base: set<Gtid>, files: seq<FileLog>, more: seq<Ev>, i: nat)
    requires i < |files| && DistinctNames(files)
    ensures |Extend(files, more)| == |files|
    ensures FilePayload(files[i]).bytes <= FilePayload(Extend(files, more)[i]).bytes
    ensures i < |files| - 1 ==> Extend(files, more)[i] == files[i]
    ensures i < |files| - 1 ==> RecordsOf(mode, base, Extend(files, more))[i] == RecordsOf(mode, base, files)[i]
  {
    hide RecordsOf, FileRecord, AllGtids;
    var k := |files| - 1;
    var e := Extend(files, more);
    BytesConcat(files[k].evs, more);
    if i < k {
      RecordAt(mode, base, files, i);
      RecordAt(mode, base, e, i);
      assert e[..i] == files[..i];
    }
  }

  /** The objects of file i in an image: a prefix of the longer payload, old or new metadata. */
  lemma FlushCompatible(img: Disk, mode: ReplicationMode, base: set<Gtid>, files: seq<FileLog>, more: seq<Ev>, i: nat)
    requires i < |files| && DistinctNames(files) && FlushMixture(img, mode, base, files, more)
    ensures
      var e := Extend(files, more);
      var (p, m) := (PayloadFile(files[i].name), MetadataFile(files[i].name));
      && |e| == |files| && p in img && m in img && img[p].Payload? && img[p].bytes <= FilePayload(e[i]).bytes
      && (img[m] == MetaOf(RecordsOf(mode, base, files)[i]) || img[m] == MetaOf(RecordsOf(mode, base, e)[i]))
  {
    hide DiskOf, RecordsOf, FileNames;
    var e := Extend(files, more);
    ExtendedNames(files, more);
    ExtendedFile(mode, base, files, more, i);
    DiskOfHolds(mode, base, files);
    DiskOfHolds(mode, base, e);
    var d, d' := DiskOf(mode, base, files), DiskOf(mode, base, e);
    var p, m := PayloadFile(files[i].name), MetadataFile(files[i].name);
    assert d[p] == FilePayload(files[i]) && d[m] == MetaOf(RecordsOf(mode, base, files)[i]);
    assert PayloadFile(e[i].name) == p;
    assert d'[p] == FilePayload(e[i]) && d'[m] == MetaOf(RecordsOf(mode, base, e)[i]);
    assert p in img && m in img;
  }

  lemma FlushChoice(img: Disk, mode: ReplicationMode, base: set<Gtid>, files: seq<FileLog>, more: seq<Ev>, i: nat)
    requires i < |files| && DistinctNames(files) && FlushMixture(img, mode, base, files, more)
    requires |Extend(files, more)| == |files|
    ensures MetadataFile(files[i].name) in img
    ensures img[MetadataFile(files[i].name)] == MetaOf(RecordsOf(mode, base, files)[i]) ==>
              Compatible(img, files[i], RecordsOf(mode, base, files)[i])
    ensures img[MetadataFile(files[i].name)] == MetaOf(RecordsOf(mode, base, Extend(files, more))[i]) ==>
              Compatible(img, Extend(files, more)[i], RecordsOf(mode, base, Extend(files, more))[i])
  {
    hide DiskOf, RecordsOf, Mixture;
    FlushCompatible(img, mode, base, files, more, i);
    ExtendedFile(mode, base, files, more, i);
    ExtendedNames(files, more);
    PrefixesCompare(img[PayloadFile(files[i].name)].bytes, FilePayload(files[i]).bytes,
                    FilePayload(Extend(files, more)[i]).bytes);
  }

  lemma FlushIndex(img: Disk, mode: ReplicationMode, base: set<Gtid>, files: seq<FileLog>, more: seq<Ev>)
    requires files != [] && DistinctNames(files) && FlushMixture(img, mode, base, files, more)
    ensures BinlogIndex in img && img[BinlogIndex] == Text(IndexText(FileNames(files)))
  {
    hide DiskOf, RecordsOf, IndexText;
    ExtendedNames(files, more);
    DiskOfHolds(mode, base, files);
    DiskOfHolds(mode, base, Extend(files, more));
  }

  lemma FlushImage(img: Disk, mode: ReplicationMode, base: set<Gtid>, files: seq<FileLog>, more: seq<Ev>,
                   construction: ConstructionMode)
    requires files != [] && DistinctNames(files) && FlushMixture(img, mode, base, files, more)
    requires !Load(img, mode, construction).Refused?
    ensures img == DiskOf(mode, base, files) || img == DiskOf(mode, base, Extend(files, more))
  {
    hide DiskOf, RecordsOf, Load, FileNames, IndexText, DistinctNames, Compatible, Extend, FlushMixture;
    ExtendedNames(files, more);
    FlushIndex(img, mode, base, files, more);
    var k, e := |files| - 1, Extend(files, more);
    FlushCompatible(img, mode, base, files, more, k);
    var chosen := if img[MetadataFile(files[k].name)] == MetaOf(RecordsOf(mode, base, files)[k]) then files else e;
    forall i | 0 <= i < |chosen|
      ensures Compatible(img, chosen[i], RecordsOf(mode, base, chosen)[i])
    {
      ExtendedFile(mode, base, files, more, i);
      FlushCompatible(img, mode, base, files, more, i);
      FlushChoice(img, mode, base, files, more, i);
    }
    AcceptedImage(img, mode, base, chosen, construction);
  }

  /** A payload write followed by a put of an existing object. */
  lemma TwoStepImage(d0: Disk, p: ObjectName, x: Object, m: ObjectName, y: Object, snap: Snap, img: Disk)
    requires p in d0 && m in d0 && p != m
    requires snap in [Snap(d0, d0), Snap(d0[p := x], d0), Snap(d0[p := x][m := y], d0),
                      Snap(d0[p := x][m := y], d0[p := x][m := y])]
    requires CrashImage(snap, img)
    ensures img.Keys == d0.Keys && Mixture(img, d0, d0[p := x][m := y])
  {
    var d1, d2 := d0[p := x], d0[p := x][m := y];
    assert d1.Keys == d0.Keys && d2.Keys == d0.Keys;
  }

  lemma FlushTrace(s: State, h: Hist, snap: Snap, img: Disk)
    requires Durable(s, h) && Buffered(s, h) && h.open
    requires CanFlush(s) && CrashPoint(s, FlushInternal(s), snap) && CrashImage(snap, img)
    ensures FlushMixture(img, s.mode, h.base, h.files, h.ready)
    ensures FlushInternal(s).backend.disk == DiskOf(s.mode, h.base, Extend(h.files, h.ready))
  {
    hide DiskOf, RecordsOf, FlushedRecord, Bytes, AllGtids, CrashImage, Mixture, DistinctNames, WholeTransactions;
    CanFlushFromInv(s, h);
    var d0 := s.backend.disk;
    var p, m := PayloadFile(h.Last().name), MetadataFile(h.Last().name);
    var x, y := s.backend.Append(s.buffer[..s.boundary]).disk[p], MetaOf(FlushedRecord(s));
    FlushedRecordIsExact(s, h);
    AppendToLast(s.mode, h.base, h.files, h.ready);
    DiskOfHolds(s.mode, h.base, h.files);
    assert h.files[|h.files| - 1].name == h.Last().name;
    assert s.buffer[..s.boundary] == Bytes(h.ready);
    var d1, d2 := d0[p := x], d0[p := x][m := y];
    assert FlushInternal(s).backend.trace == s.backend.trace + [Snap(d1, d0), Snap(d2, d0), Snap(d2, d2)];
    assert FlushInternal(s).backend.trace[|s.backend.trace|..] == [Snap(d1, d0), Snap(d2, d0), Snap(d2, d2)];
    TwoStepImage(d0, p, x, m, y, snap, img);
  }

  /** A flush interrupted anywhere is found undone or done. */
  lemma CrashInFlush(s: State, h: Hist, snap: Snap, img: Disk, construction: ConstructionMode)
    requires Durable(s, h) && Buffered(s, h) && h.open
    requires CanFlush(s) && CrashPoint(s, FlushInternal(s), snap) && CrashImage(snap, img)
    requires !Load(img, s.mode, construction).Refused?
    ensures img == s.backend.disk || img == FlushInternal(s).backend.disk
  {
    hide Load, FlushInternal, CrashPoint, CrashImage, DiskOf, FlushMixture, Extend;
    FlushTrace(s, h, snap, img);
    FlushImage(img, s.mode, h.base, h.files, h.ready, construction);
  }

  /** Creating a file, writing the magic bytes, putting new metadata, then putting the index. */
  lemma FourStepImage(d0: Disk, p: ObjectName, m: ObjectName, y: Object, t: Object, snap: Snap, img: Disk)
    requires p !in d0 && m !in d0 && p != m && p != BinlogIndex && m != BinlogIndex
    requires
      var d1 := d0[p := Payload([])];
      var d2 := d1[p := Payload(MAGIC)];
      var d3 := d2[m := y];
      var d4 := d3[BinlogIndex := t];
      snap in [Snap(d0, d0), Snap(d1, d0), Snap(d2, d0), Snap(d3, d0), Snap(d3, d3), Snap(d4, d3), Snap(d4, d4)]
    requires CrashImage(snap, img)
    ensures d0.Keys <= img.Keys
    ensures Mixture(img, d0, d0[p := Payload(MAGIC)][m := y][BinlogIndex := t])
  {
    var d1 := d0[p := Payload([])];
    var d2 := d1[p := Payload(MAGIC)];
    var d3 := d2[m := y];
    var d4 := d3[BinlogIndex := t];
    assert d4 == d0[p := Payload(MAGIC)][m := y][BinlogIndex := t];
    assert d0.Keys <= d1.Keys && d0.Keys <= d3.Keys && d0.Keys <= d4.Keys;
    forall k | k in img
      ensures (k in d0 && Cut(img[k], d0[k])) || (k in d4 && Cut(img[k], d4[k]))
    {
      FourStepObject(d0, p, m, y, t, k, img[k]);
    }
  }

  /** An object of any of the disks on the way comes from the first or the last one. */
  lemma FourStepObject(d0: Disk, p: ObjectName, m: ObjectName, y: Object, t: Object, k: ObjectName, o: Object)
    requires p !in d0 && m !in d0 && p != m && p != BinlogIndex && m != BinlogIndex
    ensures
      var d1 := d0[p := Payload([])];
      var d2 := d1[p := Payload(MAGIC)];
      var d3 := d2[m := y];
      var d4 := d3[BinlogIndex := t];
      || (k in d0 && Cut(o, d0[k])) || (k in d1 && Cut(o, d1[k]))
      || (k in d2 && Cut(o, d2[k])) || (k in d3 && Cut(o, d3[k]))
        || (k in d4 && Cut(o, d4[k])) ==>
      (k in d0 && Cut(o, d0[k])) || (k in d4 && Cut(o, d4[k]))
  {
  }

  lemma NewNamesAbsent(mode: ReplicationMode, base: set<Gtid>, files: seq<FileLog>, name: Name)
    requires DistinctNames(files) && !HasFile(files, name)
    ensures PayloadFile(name) !in DiskOf(mode, base, files) && MetadataFile(name) !in DiskOf(mode, base, files)
    ensures StorageMetadata in DiskOf(mode, base, files)
    ensures files != [] ==> BinlogIndex in DiskOf(mode, base, files)
  {
    hide DiskOf, RecordsOf, IndexText;
    DiskOfHolds(mode, base, files);
    InNames(files, PayloadFile(name));
    InNames(files, MetadataFile(name));
  }

  /** The disks open_binlog passes through when it creates a file. */
  lemma CreateTrace(s: State, name: Name, y: Object, t: Object, delta: seq<Snap>)
    requires s.backend.synced == s.backend.disk && s.backend.stream.None?
    requires y == MetaOf(OpenNew(s, name).records[|s.records|])
    requires t == Text(IndexText(NamesOf(OpenNew(s, name).records)))
    requires
      var d0 := s.backend.disk;
      var d1 := d0[PayloadFile(name) := Payload([])];
      var d2 := d1[PayloadFile(name) := Payload(MAGIC)];
      var d3 := d2[MetadataFile(name) := y];
      var d4 := d3[BinlogIndex := t];
      delta == [Snap(d1, d0), Snap(d2, d0), Snap(d3, d0), Snap(d3, d3), Snap(d4, d3), Snap(d4, d4)]
    ensures OpenNew(s, name).backend.trace == s.backend.trace + delta
    ensures OpenNew(s, name).backend.trace[|s.backend.trace|..] == delta
  {
    hide IndexText;
    assert [] + MAGIC == MAGIC;
  }

  lemma CreateImage(s: State, h: Hist, name: Name, snap: Snap, img: Disk)
    requires Durable(s, h) && !h.open && !HasFile(h.files, name)
    requires CrashPoint(s, OpenNew(s, name), snap) && CrashImage(snap, img)
    ensures s.backend.disk.Keys <= img.Keys
    ensures OpenNew(s, name).backend.disk == DiskOf(s.mode, h.base, h.files + [FileLog(name, [])])
    ensures Mixture(img, s.backend.disk, OpenNew(s, name).backend.disk)
    ensures AgreeOffIndex(s.backend.disk, OpenNew(s, name).backend.disk)
  {
    hide DiskOf, RecordsOf, IndexText, AllGtids, CrashImage, Mixture, DistinctNames, WholeTransactions, FileRecord,
      AgreeOffIndex;
    var files' := h.files + [FileLog(name, [])];
    var d0 := s.backend.disk;
    var p, m := PayloadFile(name), MetadataFile(name);
    GetGtidsTelescopes(s, h);
    AddFile(s.mode, h.base, h.files, name);
    RecordNames(s.mode, h.base, files');
    NewNamesAbsent(s.mode, h.base, h.files, name);
    var y := MetaOf(FileRecord(s.mode, AllGtids(h.base, h.files), FileLog(name, [])));
    var t := Text(IndexText(FileNames(files')));
    CreatedRecords(s, h, name);
    hide OpenNew;
    var d1 := d0[p := Payload([])];
    var d2 := d1[p := Payload(MAGIC)];
    var d3 := d2[m := y];
    var d4 := d3[BinlogIndex := t];
    var delta := [Snap(d1, d0), Snap(d2, d0), Snap(d3, d0), Snap(d3, d3), Snap(d4, d3), Snap(d4, d4)];
    CreateTrace(s, name, y, t, delta);
    assert d4 == d0[p := Payload(MAGIC)][m := y][BinlogIndex := t];
    FourStepImage(d0, p, m, y, t, snap, img);
    CreatedAgrees(d0, p, m, y, t);
  }

  lemma CreatedAgrees(d0: Disk, p: ObjectName, m: ObjectName, y: Object, t: Object)
    requires p !in d0 && m !in d0
    ensures AgreeOffIndex(d0, d0[p := Payload(MAGIC)][m := y][BinlogIndex := t])
  {
  }

  lemma CreatedRecords(s: State, h: Hist, name: Name)
    requires Durable(s, h) && !h.open
    ensures var files' := h.files + [FileLog(name, [])];
      && OpenNew(s, name).records == RecordsOf(s.mode, h.base, files')
      && |s.records| == |h.files|
      && OpenNew(s, name).records[|s.records|] == FileRecord(s.mode, AllGtids(h.base, h.files), FileLog(name, []))
      && NamesOf(OpenNew(s, name).records) == FileNames(files')
      && OpenNew(s, name).backend.disk == DiskOf(s.mode, h.base, files')
  {
    hide DiskOf, RecordsOf, IndexText, AllGtids, FileRecord;
    var files' := h.files + [FileLog(name, [])];
    GetGtidsTelescopes(s, h);
    AddFile(s.mode, h.base, h.files, name);
    RecordNames(s.mode, h.base, files');
    assert [] + MAGIC == MAGIC;
    var d := s.backend.disk;
    var p := PayloadFile(name);
    assert d[p := Payload([])][p := Payload(MAGIC)] == d[p := Payload(MAGIC)];
  }

  /** Opening a new file interrupted anywhere is found undone or done. */
  lemma CrashInCreate(s: State, h: Hist, name: Name, snap: Snap, img: Disk, construction: ConstructionMode)
    requires Durable(s, h) && !h.open && !HasFile(h.files, name)
    requires CrashPoint(s, OpenNew(s, name), snap) && CrashImage(snap, img)
    requires !Load(img, s.mode, construction).Refused?
    ensures img == s.backend.disk || img == OpenNew(s, name).backend.disk
  {
    hide Load, OpenNew, CrashPoint, CrashImage, DiskOf, Mixture, AgreeOffIndex;
    CreateImage(s, h, name, snap, img);
    NewNamesAbsent(s.mode, h.base, h.files, name);
    var files' := h.files + [FileLog(name, [])];
    assert DistinctNames(files');
    AcceptedMixture(img, s.mode, construction, h.base, h.files, h.base, files');
  }

  // ----- crashes inside any call -------------------------------------------------------

  lemma CrashAtRest(s: State, h: Hist, img: Disk, construction: ConstructionMode)
    requires Durable(s, h) && CrashImage(Snap(s.backend.disk, s.backend.synced), img)
    requires !Load(img, s.mode, construction).Refused?
    ensures img == s.backend.disk
  {
    hide Load, DiskOf, CrashImage;
    AtRestImage(img, s.mode, h.base, h.files, construction);
  }

  /** Calls other than an open of a new file or a flush leave the disk and its trace alone. */
  lemma QuietCall(s: State, s': State, h: Hist, snap: Snap, img: Disk, construction: ConstructionMode)
    requires Durable(s, h) && s'.backend.trace == s.backend.trace
    requires CrashPoint(s, s', snap) && CrashImage(snap, img) && !Load(img, s.mode, construction).Refused?
    ensures img == s.backend.disk
  {
    hide Load, CrashImage, Durable;
    assert s'.backend.trace[|s.backend.trace|..] == [];
    CrashAtRest(s, h, img, construction);
  }

  lemma CrashInWrite(s: State, h: Hist, e: Ev, now: nat, snap: Snap, img: Disk, construction: ConstructionMode)
    requires Inv(s, h) && CanFlush(s) && e.bytes != [] && CrashPoint(s, WriteEvent(s, e, now), snap)
    requires CrashImage(snap, img) && !Load(img, s.mode, construction).Refused?
    ensures img == s.backend.disk || img == WriteEvent(s, e, now).backend.disk
  {
    hide Load, CrashImage, FlushInternal, Durable, Buffered;
    OpenWhenWritable(s, h);
    var s1, h1 := BufferEvent(s, e), HistBuffer(h, e);
    BufferKeeps(s, h, e);
    BufferKeepsDurable(s, h, e);
    assert s1.backend == s.backend;
    if s1.boundary != 0 && NeedsFlush(s1, now) {
      CanFlushFromInv(s1, h1);
      CrashInFlush(s1, h1, snap, img, construction);
    } else {
      QuietCall(s, s1, h, snap, img, construction);
    }
  }

  lemma CrashInFlushOp(s: State, s': State, h: Hist, snap: Snap, img: Disk, construction: ConstructionMode)
    requires Inv(s, h) && (CanFlush(s) || s.boundary == 0) && s'.backend.trace == Flush(s).backend.trace
    requires CrashPoint(s, s', snap) && CrashImage(snap, img) && !Load(img, s.mode, construction).Refused?
    ensures img == s.backend.disk || img == Flush(s).backend.disk
  {
    hide Load, CrashImage, FlushInternal, Durable, Buffered;
    if s.boundary != 0 {
      OpenWhenWritable(s, h);
      assert CrashPoint(s, FlushInternal(s), snap);
      CrashInFlush(s, h, snap, img, construction);
    } else {
      QuietCall(s, s', h, snap, img, construction);
    }
  }

  lemma CrashInOpen(s: State, h: Hist, name: Name, now: nat, snap: Snap, img: Disk, construction: ConstructionMode)
    requires Inv(s, h) && Effect(s, Open(name), now).Ok? && CrashPoint(s, Effect(s, Open(name), now).value, snap)
    requires CrashImage(snap, img) && !Load(img, s.mode, construction).Refused?
    ensures img == s.backend.disk || img == Effect(s, Open(name), now).value.backend.disk
  {
    hide Load, CrashImage, OpenNew, Buffered;
    KnownNames(s, h, name);
    if h.open || (HasFile(h.files, name) && h.Last().name != name) {
      OpenOtherFails(s, h, name, now);
    } else if HasFile(h.files, name) {
      OpenExistingKeeps(s, h, now);
      QuietCall(s, Effect(s, Open(name), now).value, h, snap, img, construction);
    } else {
      assert CrashPoint(s, OpenNew(s, name), snap);
      CrashInCreate(s, h, name, snap, img, construction);
    }
  }

  /**
   * Crash recovery.  Whatever call is in progress, at whichever step the crash falls, with any
   * un-fsynced directory entry lost or kept and any payload cut anywhere: a restart refuses the
   * directory, or finds exactly the disk of before the call or exactly the disk of after it.
   */
  lemma CrashRecovery(s: State, h: Hist, op: Op, now: nat, snap: Snap, img: Disk, construction: ConstructionMode)
    requires Inv(s, h) && Effect(s, op, now).Ok? && (op.Write? ==> op.e.bytes != [])
    requires CrashPoint(s, Effect(s, op, now).value, snap) && CrashImage(snap, img)
    requires !Load(img, s.mode, construction).Refused?
    ensures img == s.backend.disk || img == Effect(s, op, now).value.backend.disk
  {
    hide Load, CrashImage, Inv, WriteEvent, OpenBinlog, Flush;
    match op
    case Open(name) => CrashInOpen(s, h, name, now, snap, img, construction);
    case Write(e) => CrashInWrite(s, h, e, now, snap, img, construction);
    case FlushNow => CrashInFlushOp(s, Flush(s), h, snap, img, construction);
    case Discard => DurableFromInv(s, h); QuietCall(s, DiscardIncomplete(s), h, snap, img, construction);
    case Close => CrashInFlushOp(s, CloseBinlog(s, now), h, snap, img, construction);
  }

  lemma DurableFromInv(s: State, h: Hist)
    requires Inv(s, h)
    ensures Durable(s, h)
  {
  }

  // ----- restarts ----------------------------------------------------------------------

  /** The streaming storage built by the constructor from an accepted directory. */
  ghost function Restarted(o: Outcome, mode: ReplicationMode, ckptSize: nat, ckptInterval: nat): State
    requires o.Opened?
  {
    State(Streaming, mode, ckptSize, ckptInterval, Backend(o.disk, o.disk, None, []), o.records, o.purged,
          0, 0, [], 0, {}, EMPTY, EMPTY, 0, 0)
  }

  /** Whatever the disk of a log is opened with satisfies the invariant again, with an empty buffer. */
  lemma RestartKeeps(mode: ReplicationMode, base: set<Gtid>, files: seq<FileLog>, ckptSize: nat, ckptInterval: nat)
    requires DistinctNames(files) && WholeTransactions(files)
    requires Load(DiskOf(mode, base, files), mode, Streaming).Opened?
    ensures var base' := if files == [] then {} else base;
      Inv(Restarted(Load(DiskOf(mode, base, files), mode, Streaming), mode, ckptSize, ckptInterval),
          Hist(base', files, [], [], false))
  {
    hide LoadIndex, DiskOf, RecordsOf, LoadRecords, PayloadObjects, MetadataObjects, IndexText;
    assert Bytes([]) == [] && Gtids([]) == {} && Stamps([]) == [] && RangeOf([]) == EMPTY;
    if files != [] {
      LoadOfDisk(mode, base, files, Streaming);
    } else {
      EmptyDisk(mode, base);
    }
  }

  lemma EmptyDisk(mode: ReplicationMode, base: set<Gtid>)
    ensures DiskOf(mode, base, []) == map[StorageMetadata := StorageMeta(mode)] == DiskOf(mode, {}, [])
    ensures RecordsOf(mode, base, []) == []
    ensures forall construction ::
      Load(DiskOf(mode, base, []), mode, construction) == Opened([], {}, DiskOf(mode, base, []))
  {
  }

  /** A fresh directory opens as an empty storage. */
  lemma FirstStart(mode: ReplicationMode, ckptSize: nat, ckptInterval: nat)
    ensures Load(map[], mode, Streaming).Opened?
    ensures Inv(Restarted(Load(map[], mode, Streaming), mode, ckptSize, ckptInterval), Hist({}, [], [], [], false))
  {
    EmptyDisk(mode, {});
    assert map[][StorageMetadata := StorageMeta(mode)] == map[StorageMetadata := StorageMeta(mode)];
    assert Bytes([]) == [] && Gtids([]) == {} && Stamps([]) == [] && RangeOf([]) == EMPTY;
  }

  // ----- whole lives -------------------------------------------------------------------

  /** One step of a storage's life: a successful call, or a crash inside a call and an accepted restart. */
  datatype Life = Call(op: Op, now: nat) | Crash(op: Op, now: nat, snap: Snap, img: Disk)

  ghost predicate Possible(s: State, l: Life) {
    && (l.op.Write? ==> l.op.e.bytes != [])
    && (l.Call? ==> Apply(s, l.op, l.now).Ok?)
    && (l.Crash? ==>
          && Effect(s, l.op, l.now).Ok? && CrashPoint(s, Effect(s, l.op, l.now).value, l.snap)
          && CrashImage(l.snap, l.img) && Load(l.img, s.mode, Streaming).Opened?)
  }

  ghost function Live(s: State, l: Life): State
    requires Possible(s, l)
  {
    match l
    case Call(op, now) => Apply(s, op, now).value
    case Crash(op, now, snap, img) => Restarted(Load(img, s.mode, Streaming), s.mode, s.ckptSize, s.ckptInterval)
  }

  ghost predicate LifeOf(states: seq<State>, steps: seq<Life>) {
    && |states| == |steps| + 1
    && forall i :: 0 <= i < |steps| ==> Possible(states[i], steps[i]) && states[i + 1] == Live(states[i], steps[i])
  }

  /** The files a step may leave behind: those of before the call, or those of after it. */
  ghost predicate KeepsFiles(h: Hist, op: Op, files: seq<FileLog>) {
    files == h.files || files == HistApply(h, op).files || files == HistFlush(HistApply(h, op)).files
  }

  lemma EffectOnDisk(s: State, h: Hist, op: Op, now: nat) returns (files: seq<FileLog>)
    requires Inv(s, h) && Effect(s, op, now).Ok? && (op.Write? ==> op.e.bytes != [])
    ensures KeepsFiles(h, op, files) && DistinctNames(files) && WholeTransactions(files)
    ensures Effect(s, op, now).value.backend.disk == DiskOf(s.mode, h.base, files)
  {
    hide DiskOf, RecordsOf, OpenBinlog, WriteEvent, OpenNew;
    if Apply(s, op, now).Ok? {
      var h' := StepRefines(s, h, op, now);
      BaseKept(h, op);
      ModeKept(s, h, op, now);
      files := h'.files;
    } else {
      // an open whose asserts fail has written the new file all the same
      files := AssertedOpenOnDisk(s, h, op.name, now);
    }
  }

  lemma ModeKept(s: State, h: Hist, op: Op, now: nat)
    requires Inv(s, h) && Effect(s, op, now).Ok?
    ensures Effect(s, op, now).value.mode == s.mode
  {
    hide Inv;
  }

  lemma AssertedOpenOnDisk(s: State, h: Hist, name: Name, now: nat) returns (files: seq<FileLog>)
    requires Inv(s, h) && Effect(s, Open(name), now).Ok?
    ensures KeepsFiles(h, Open(name), files) && DistinctNames(files) && WholeTransactions(files)
    ensures Effect(s, Open(name), now).value.backend.disk == DiskOf(s.mode, h.base, files)
  {
    hide DiskOf, RecordsOf, OpenNew, Buffered;
    KnownNames(s, h, name);
    if h.open || (HasFile(h.files, name) && h.Last().name != name) {
      OpenOtherFails(s, h, name, now);
    } else if HasFile(h.files, name) {
      OpenExistingKeeps(s, h, now);
      files := h.files;
    } else {
      files := h.files + [FileLog(name, [])];
      CreatedRecords(s, h, name);
    }
  }

  /** What a step of life does to the log: the call itself, or a restart on the files of before or after it. */
  ghost predicate Follows(h: Hist, l: Life, h': Hist) {
    && KeepsFiles(h, l.op, h'.files) && (h'.files != [] ==> h'.base == h.base)
    && match l
       case Call(op, now) => Abs(h') == LogApply(Abs(h), op)
       case Crash(op, now, snap, img) => h'.ready == [] && h'.tail == [] && !h'.open
  }

  /** One step of life keeps the invariant for a log that follows from the one before. */
  lemma LifeStep(s: State, h: Hist, l: Life) returns (h': Hist)
    requires Inv(s, h) && Possible(s, l)
    ensures Inv(Live(s, l), h') && Follows(h, l, h')
  {
    hide Inv, Load, Apply, Effect, CrashImage, CrashPoint, DiskOf, HistApply, HistFlush, DistinctNames,
      WholeTransactions, Abs, LogApply;
    match l
    case Call(op, now) =>
      h' := StepRefines(s, h, op, now);
      BaseKept(h, op);
    case Crash(op, now, snap, img) =>
      CrashRecovery(s, h, op, now, snap, img, Streaming);
      var files := EffectOnDisk(s, h, op, now);
      if img == s.backend.disk {
        files := h.files;
        RestFiles(s, h);
      }
      RestartKeeps(s.mode, h.base, files, s.ckptSize, s.ckptInterval);
      h' := Hist(if files == [] then {} else h.base, files, [], [], false);
  }

  lemma RestFiles(s: State, h: Hist)
    requires Inv(s, h)
    ensures s.backend.disk == DiskOf(s.mode, h.base, h.files) && DistinctNames(h.files) && WholeTransactions(h.files)
  {
  }

  /** Nothing that is on disk is taken away: files get longer and more. */
  ghost predicate Longer(a: seq<FileLog>, b: seq<FileLog>) {
    |a| <= |b| && forall i :: 0 <= i < |a| ==> a[i].name == b[i].name && a[i].evs <= b[i].evs
  }

  lemma FlushLonger(h: Hist)
    ensures Longer(h.files, HistFlush(h).files)
  {
    if h.files != [] {
      var n := |h.files| - 1;
      assert forall i :: 0 <= i < n ==> HistFlush(h).files[i] == h.files[i];
      assert h.files[n].evs <= h.files[n].evs + h.ready;
    }
  }

  lemma KeptIsLonger(h: Hist, op: Op, files: seq<FileLog>)
    requires KeepsFiles(h, op, files)
    ensures Longer(h.files, files)
  {
    FlushLonger(h);
    FlushLonger(HistApply(h, op));
    LongerTransitive(h.files, HistApply(h, op).files, HistFlush(HistApply(h, op)).files);
  }

  lemma LongerTransitive(a: seq<FileLog>, b: seq<FileLog>, c: seq<FileLog>)
    ensures Longer(a, b) && Longer(b, c) ==> Longer(a, c)
  {
  }

  /** One log for every state of a life, each following from the one before. */
  ghost predicate LogsOf(states: seq<State>, steps: seq<Life>, logs: seq<Hist>, n: nat)
    requires |states| == |steps| + 1 && n <= |steps|
  {
    && |logs| == n + 1
    && (forall i :: 0 <= i <= n ==> Inv(states[i], logs[i]) && Longer(logs[0].files, logs[i].files))
    && (forall i :: 0 <= i < n ==> Follows(logs[i], steps[i], logs[i + 1]))
  }

  /**
   * Over a whole life of calls, crashes and restarts every state has a log it is exact for: records,
   * disk and metadata agree with it, and every file ends at a transaction boundary.  The logs form a run: each
   * call acts on the log, each crash keeps the files of before or after the call in progress, and nothing that was
   * ever on disk is lost.
   */
  lemma {:induction false} LifeIsSafe(states: seq<State>, steps: seq<Life>, h: Hist, n: nat) returns (logs: seq<Hist>)
    requires LifeOf(states, steps) && Inv(states[0], h) && n <= |steps|
    ensures LogsOf(states, steps, logs, n) && logs[0] == h
    decreases n
  {
    hide Inv, Possible, Live, Follows, Longer;
    if n == 0 {
      logs := [h];
      LongerReflexive(h.files);
    } else {
      var before := LifeIsSafe(states, steps, h, n - 1);
      assert states[n - 1 + 1] == Live(states[n - 1], steps[n - 1]);
      var h' := LifeStep(states[n - 1], before[n - 1], steps[n - 1]);
      FollowsLonger(before[n - 1], steps[n - 1], h');
      LongerTransitive(h.files, before[n - 1].files, h'.files);
      logs := before + [h'];
    }
  }

  lemma LongerReflexive(a: seq<FileLog>)
    ensures Longer(a, a)
  {
  }

  lemma FollowsLonger(h: Hist, l: Life, h': Hist)
    requires Follows(h, l, h')
    ensures Longer(h.files, h'.files)
  {
    hide HistApply, HistFlush, Longer;
    KeptIsLonger(h, l.op, h'.files);
  }
}
