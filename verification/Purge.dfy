/** storage::purge_binlogs: an index rewrite, then best-effort removals, one durability barrier at the end. */
module Purge {
  import opened Prelude
  import opened BinlogNames
  import opened StorageModel
  import opened Recovery
  import opened CrashSafety

  // ----- the operation -----------------------------------------------------------------

  datatype Purged = Purged(removed: seq<Record>, state: State, warning: bool)

  /** do_remove_object: fails when the system refuses or the object is not there. */
  ghost function Remove(b: Backend, name: ObjectName, refusing: set<ObjectName>): Backend {
    if name in refusing || name !in b.disk then b
    else
      var d := b.disk - {name};
      b.(disk := d, trace := b.trace + [Snap(d, b.synced)])
  }

  /** remove_objects without its barrier: every name is tried. */
  ghost function RemoveAll(b: Backend, names: seq<ObjectName>, refusing: set<ObjectName>): Backend {
    if names == [] then b
    else Remove(RemoveAll(b, names[..|names| - 1], refusing), names[|names| - 1], refusing)
  }

  /** Whether some removal of the batch failed, so that remove_objects raises in the end. */
  ghost predicate AnyError(b: Backend, names: seq<ObjectName>, refusing: set<ObjectName>) {
    names != [] &&
    var before, last := names[..|names| - 1], names[|names| - 1];
    AnyError(b, before, refusing) || last in refusing || last !in RemoveAll(b, before, refusing).disk
  }

  ghost function Barrier(b: Backend): Backend {
    b.(synced := b.disk, trace := b.trace + [Snap(b.disk, b.disk)])
  }

  /** Metadata and payload of each victim, in order. */
  function VictimObjects(victims: seq<Record>): seq<ObjectName> {
    if victims == [] then []
    else
      var k := |victims| - 1;
      VictimObjects(victims[..k]) + [MetadataFile(victims[k].name), PayloadFile(victims[k].name)]
  }

  function IndexOfName(records: seq<Record>, name: Name): (k: nat)
    ensures k <= |records|
    ensures k < |records| ==> records[k].name == name
    ensures forall i :: 0 <= i < k ==> records[i].name != name
  {
    if records == [] || records[0].name == name then 0 else 1 + IndexOfName(records[1..], name)
  }

  ghost function PurgeBinlogs(s: State, target: Name, refusing: set<ObjectName>): Result<Purged> {
    var k := IndexOfName(s.records, target);
    if s.construction != Purging || s.IsEmpty() then Err
    else if s.records[0].name.base != target.base then Err
    else if k == |s.records| || k == |s.records| - 1 then Err
    else
      var victims, rest := s.records[..k + 1], s.records[k + 1..];
      var b := s.backend.Put(BinlogIndex, Text(IndexText(NamesOf(rest))));
      var b' := RemoveAll(b, VictimObjects(victims), refusing);
      Ok(Purged(victims, s.(records := rest, backend := Barrier(b')), AnyError(b, VictimObjects(victims), refusing)))
  }

  /** A purging storage just opened on the disk of a log. */
  ghost predicate OpenedOn(s: State, base: set<Gtid>, files: seq<FileLog>) {
    && s.construction == Purging && DistinctNames(files) && WholeTransactions(files)
    && s.records == RecordsOf(s.mode, base, files)
    && s.backend.disk == s.backend.synced == DiskOf(s.mode, base, files)
  }

  // ----- when it succeeds --------------------------------------------------------------

  /** The target is a file of the storage, not the last one, and has the base name of the first one. */
  ghost predicate Purgeable(files: seq<FileLog>, target: Name) {
    exists i :: 0 <= i < |files| - 1 && files[i].name == target && files[0].name.base == target.base
  }

  lemma PurgeSucceedsIff(s: State, base: set<Gtid>, files: seq<FileLog>, target: Name, refusing: set<ObjectName>)
    requires OpenedOn(s, base, files)
    ensures PurgeBinlogs(s, target, refusing).Ok? <==> Purgeable(files, target)
    ensures PurgeBinlogs(s, target, refusing).Ok? ==>
      var n := |PurgeBinlogs(s, target, refusing).value.removed|;
      n == IndexOfName(s.records, target) + 1 < |files| && files[n - 1].name == target
  {
    hide RecordsOf, DiskOf, RemoveAll, VictimObjects, AnyError;
    RecordNames(s.mode, base, files);
    assert forall i :: 0 <= i < |files| ==> s.records[i].name == NamesOf(s.records)[i] == files[i].name;
    var k := IndexOfName(s.records, target);
    if Purgeable(files, target) {
      var i :| 0 <= i < |files| - 1 && files[i].name == target && files[0].name.base == target.base;
      assert k == i;
    }
  }

  /** A storage opened for streaming refuses to purge. */
  lemma StreamingRefuses(s: State, target: Name, refusing: set<ObjectName>)
    requires s.construction == Streaming
    ensures PurgeBinlogs(s, target, refusing).Err?
  {
  }

  // ----- splitting a log ---------------------------------------------------------------

  lemma {:induction false} AllGtidsSplit(base: set<Gtid>, files: seq<FileLog>, n: nat)
    requires n <= |files|
    ensures AllGtids(base, files) == AllGtids(AllGtids(base, files[..n]), files[n..])
    decreases |files|
  {
    hide Gtids;
    var k := |files| - 1;
    if n == |files| {
      assert files[..n] == files && files[n..] == [];
    } else {
      AllGtidsSplit(base, files[..k], n);
      var rest := files[n..];
      assert files[..k][..n] == files[..n] && files[..k][n..] == rest[..|rest| - 1] && rest[|rest| - 1] == files[k];
    }
  }

  /** The surviving records are untouched: the chain of previous sets goes on from the purged part. */
  lemma SurvivingRecord(mode: ReplicationMode, base: set<Gtid>, files: seq<FileLog>, n: nat, i: nat)
    requires n + i < |files|
    ensures RecordsOf(mode, AllGtids(base, files[..n]), files[n..])[i] == RecordsOf(mode, base, files)[n + i]
  {
    hide RecordsOf, FileRecord, AllGtids;
    RecordAt(mode, base, files, n + i);
    RecordAt(mode, AllGtids(base, files[..n]), files[n..], i);
    AllGtidsSplit(base, files[..n + i], n);
    assert files[..n + i][..n] == files[..n];
    assert files[..n + i][n..] == files[n..][..i];
  }

  lemma SurvivingRecords(mode: ReplicationMode, base: set<Gtid>, files: seq<FileLog>, n: nat)
    requires n <= |files|
    ensures RecordsOf(mode, AllGtids(base, files[..n]), files[n..]) == RecordsOf(mode, base, files)[n..]
  {
    hide RecordsOf;
    forall i | 0 <= i < |files| - n
      ensures RecordsOf(mode, AllGtids(base, files[..n]), files[n..])[i] == RecordsOf(mode, base, files)[n..][i]
    {
      SurvivingRecord(mode, base, files, n, i);
    }
  }

  lemma SuffixNames(files: seq<FileLog>, n: nat)
    requires DistinctNames(files) && n <= |files|
    ensures DistinctNames(files[n..])
    ensures forall name :: HasFile(files, name) <==> HasFile(files[..n], name) || HasFile(files[n..], name)
    ensures forall name :: !(HasFile(files[..n], name) && HasFile(files[n..], name))
  {
    assert forall i :: 0 <= i < |files| - n ==> files[n..][i] == files[n + i];
    forall name
      ensures HasFile(files, name) <==> HasFile(files[..n], name) || HasFile(files[n..], name)
    {
      if HasFile(files, name) {
        var i :| 0 <= i < |files| && files[i].name == name;
        assert i < n ==> files[..n][i].name == name;
        assert i >= n ==> files[n..][i - n].name == name;
      }
    }
  }

  /** The two storages share every object the later one has, except the index. */
  lemma SuffixAgrees(mode: ReplicationMode, base: set<Gtid>, files: seq<FileLog>, n: nat)
    requires DistinctNames(files) && n < |files|
    ensures var a, b := DiskOf(mode, base, files), DiskOf(mode, AllGtids(base, files[..n]), files[n..]);
      b.Keys <= a.Keys && AgreeOffIndex(a, b)
  {
    hide DiskOf, RecordsOf, IndexText, AllGtids, FilePayload;
    var base', rest := AllGtids(base, files[..n]), files[n..];
    SuffixNames(files, n);
    DiskOfHolds(mode, base, files);
    DiskOfHolds(mode, base', rest);
    var a, b := DiskOf(mode, base, files), DiskOf(mode, base', rest);
    forall k | k in b
      ensures k in a && (k != BinlogIndex ==> a[k] == b[k])
    {
      InNames(files, k);
      InNames(rest, k);
      if k.PayloadFile? || k.MetadataFile? {
        var i :| 0 <= i < |rest| && rest[i].name == k.name;
        assert files[n + i] == rest[i];
        SurvivingRecord(mode, base, files, n, i);
        assert Holds(a, files, RecordsOf(mode, base, files));
        assert a[PayloadFile(files[n + i].name)] == FilePayload(files[n + i]);
        assert b[PayloadFile(rest[i].name)] == FilePayload(rest[i]);
      }
    }
  }

  // ----- removals ----------------------------------------------------------------------

  /** Every disk of a removal batch keeps the other objects and only drops listed ones. */
  ghost predicate Thinned(d: Disk, full: Disk, names: seq<ObjectName>) {
    && d.Keys <= full.Keys
    && (forall k :: k in full && k !in names ==> k in d)
    && (forall k :: k in d ==> d[k] == full[k])
  }

  lemma {:induction false} RemoveAllThins(b: Backend, names: seq<ObjectName>, refusing: set<ObjectName>)
    ensures var r := RemoveAll(b, names, refusing);
      && Thinned(r.disk, b.disk, names) && r.synced == b.synced && r.stream == b.stream
      && b.trace <= r.trace
      && (forall j :: |b.trace| <= j < |r.trace| ==>
        Thinned(r.trace[j].disk, b.disk, names) && r.trace[j].synced == b.synced)
      && (forall o :: o in names && o in b.disk ==> (o in r.disk <==> o in refusing))
  {
    if names != [] {
      var k := |names| - 1;
      RemoveAllThins(b, names[..k], refusing);
      var r := RemoveAll(b, names[..k], refusing);
      var r' := RemoveAll(b, names, refusing);
      assert forall o :: o in names <==> o in names[..k] || o == names[k];
      assert names[k] in names;
      forall j | |b.trace| <= j < |r'.trace|
        ensures Thinned(r'.trace[j].disk, b.disk, names) && r'.trace[j].synced == b.synced
      {
        if j < |r.trace| {
          assert r'.trace[j] == r.trace[j];
        }
      }
    }
  }

  /** For distinct objects that are all there, a removal fails iff the system refuses one of them. */
  lemma {:induction false} AnyErrorIff(b: Backend, names: seq<ObjectName>, refusing: set<ObjectName>)
    requires Distinct(names) && forall o :: o in names ==> o in b.disk
    ensures AnyError(b, names, refusing) <==> exists o :: o in names && o in refusing
  {
    if names != [] {
      var k := |names| - 1;
      assert forall o :: o in names <==> o in names[..k] || o == names[k];
      assert names[k] !in names[..k];
      AnyErrorIff(b, names[..k], refusing);
      RemoveAllThins(b, names[..k], refusing);
    }
  }

  lemma {:induction false} VictimsDistinct(victims: seq<Record>)
    requires forall i, j :: 0 <= i < j < |victims| ==> victims[i].name != victims[j].name
    ensures Distinct(VictimObjects(victims))
  {
    if victims != [] {
      var k := |victims| - 1;
      var r := victims[k];
      VictimsDistinct(victims[..k]);
      VictimObject(victims[..k], MetadataFile(r.name));
      VictimObject(victims[..k], PayloadFile(r.name));
    }
  }

  ghost predicate HasRecord(records: seq<Record>, name: Name) {
    exists i :: 0 <= i < |records| && records[i].name == name
  }

  lemma HasRecordSnoc(records: seq<Record>, name: Name)
    requires records != []
    ensures var k := |records| - 1;
      HasRecord(records, name) <==> HasRecord(records[..k], name) || records[k].name == name
  {
    var k := |records| - 1;
    assert forall i :: 0 <= i < k ==> records[..k][i] == records[i];
  }

  lemma {:induction false} VictimObject(victims: seq<Record>, o: ObjectName)
    ensures o in VictimObjects(victims) <==> (o.PayloadFile? || o.MetadataFile?) && HasRecord(victims, o.name)
  {
    if victims != [] {
      hide HasRecord;
      var k := |victims| - 1;
      VictimObject(victims[..k], o);
      if o.PayloadFile? || o.MetadataFile? { HasRecordSnoc(victims, o.name); }
    }
  }

  lemma VictimNames(mode: ReplicationMode, base: set<Gtid>, files: seq<FileLog>, o: ObjectName)
    ensures o in VictimObjects(RecordsOf(mode, base, files))
       <==> (o.PayloadFile? || o.MetadataFile?) && HasFile(files, o.name)
  {
    hide RecordsOf, VictimObjects;
    var records := RecordsOf(mode, base, files);
    VictimObject(records, o);
    RecordNames(mode, base, files);
    assert forall i :: 0 <= i < |files| ==> records[i].name == files[i].name;
  }

  /** What a purge of the first n files leaves: everything but (some of) the victims' objects. */
  ghost predicate PurgeDisk(d: Disk, mode: ReplicationMode, base: set<Gtid>, files: seq<FileLog>, n: nat)
    requires n < |files|
  {
    var a, b := DiskOf(mode, base, files), DiskOf(mode, AllGtids(base, files[..n]), files[n..]);
    && b.Keys <= d.Keys <= a.Keys
    && (forall k :: k in d && k != BinlogIndex ==> d[k] == a[k])
    && BinlogIndex in d && BinlogIndex in b && d[BinlogIndex] == b[BinlogIndex]
  }

  lemma ThinnedIsPurgeDisk(d: Disk, mode: ReplicationMode, base: set<Gtid>, files: seq<FileLog>, n: nat)
    requires DistinctNames(files) && n < |files|
    requires Thinned(d, DiskOf(mode, base, files)[BinlogIndex := Text(IndexText(FileNames(files[n..])))],
                     VictimObjects(RecordsOf(mode, base, files[..n])))
    ensures PurgeDisk(d, mode, base, files, n)
  {
    hide DiskOf, RecordsOf, IndexText, AllGtids, VictimObjects, HasFile;
    var base', rest := AllGtids(base, files[..n]), files[n..];
    SuffixNames(files, n);
    SuffixAgrees(mode, base, files, n);
    DiskOfHolds(mode, base, files);
    DiskOfHolds(mode, base', rest);
    var a, b := DiskOf(mode, base, files), DiskOf(mode, base', rest);
    VictimNames(mode, base, files[..n], BinlogIndex);
    forall k | k in b
      ensures k in d
    {
      VictimNames(mode, base, files[..n], k);
      InNames(rest, k);
    }
  }

  lemma PurgeImage(snap: Snap, img: Disk, mode: ReplicationMode, base: set<Gtid>, files: seq<FileLog>, n: nat)
    requires DistinctNames(files) && n < |files| && CrashImage(snap, img)
    requires snap.disk == DiskOf(mode, base, files) || PurgeDisk(snap.disk, mode, base, files, n)
    requires snap.synced == DiskOf(mode, base, files) || PurgeDisk(snap.synced, mode, base, files, n)
    ensures var a, b := DiskOf(mode, base, files), DiskOf(mode, AllGtids(base, files[..n]), files[n..]);
      Mixture(img, a, b) && StorageMetadata in img && BinlogIndex in img && AgreeOffIndex(a, b)
  {
    hide DiskOf, RecordsOf, IndexText, AllGtids, DistinctNames;
    var a, b := DiskOf(mode, base, files), DiskOf(mode, AllGtids(base, files[..n]), files[n..]);
    SuffixAgrees(mode, base, files, n);
    SuffixNames(files, n);
    DiskOfHolds(mode, AllGtids(base, files[..n]), files[n..]);
    DiskOfHolds(mode, base, files);
    assert b.Keys <= snap.disk.Keys && b.Keys <= snap.synced.Keys;
  }

  // ----- atomicity ---------------------------------------------------------------------

  lemma PurgeTrace(s: State, base: set<Gtid>, files: seq<FileLog>, target: Name, refusing: set<ObjectName>)
    requires OpenedOn(s, base, files) && PurgeBinlogs(s, target, refusing).Ok?
    ensures var n := |PurgeBinlogs(s, target, refusing).value.removed|;
      var s' := PurgeBinlogs(s, target, refusing).value.state;
      && 0 < n < |files|
      && PurgeBinlogs(s, target, refusing).value.removed == RecordsOf(s.mode, base, files[..n])
      && s'.records == RecordsOf(s.mode, AllGtids(base, files[..n]), files[n..])
      && PurgeDisk(s'.backend.disk, s.mode, base, files, n)
      && s.backend.trace <= s'.backend.trace
      && (forall j :: |s.backend.trace| <= j < |s'.backend.trace| ==>
            && PurgeDisk(s'.backend.trace[j].disk, s.mode, base, files, n)
            && (|| s'.backend.trace[j].synced == s.backend.disk
                || PurgeDisk(s'.backend.trace[j].synced, s.mode, base, files, n)))
      && (PurgeBinlogs(s, target, refusing).value.warning
          <==> exists o :: o in VictimObjects(RecordsOf(s.mode, base, files[..n])) && o in refusing)
      && (forall o :: o in s'.backend.disk && o in VictimObjects(RecordsOf(s.mode, base, files[..n])) ==> o in refusing)
      && (forall o :: o in refusing && o in VictimObjects(RecordsOf(s.mode, base, files[..n])) ==> o in s'.backend.disk)
  {
    hide DiskOf, RecordsOf, IndexText, AllGtids, DistinctNames, VictimObjects, RemoveAll, PurgeDisk, AnyError;
    var n := IndexOfName(s.records, target) + 1;
    var victims, rest := s.records[..n], s.records[n..];
    assert |s.records| == |files|;
    PrefixRecords(s.mode, base, files, n);
    SurvivingRecords(s.mode, base, files, n);
    RecordNames(s.mode, AllGtids(base, files[..n]), files[n..]);
    var text := Text(IndexText(FileNames(files[n..])));
    var b := s.backend.Put(BinlogIndex, text);
    var names := VictimObjects(victims);
    RemoveAllThins(b, names, refusing);
    var r := RemoveAll(b, names, refusing);
    PurgeDisks(s, base, files, n, b, r, names);
    VictimsWerePresent(s.mode, base, files, n);
    WarningIff(s, base, files, n, b, refusing);
  }

  lemma WarningIff(s: State, base: set<Gtid>, files: seq<FileLog>, n: nat, b: Backend, refusing: set<ObjectName>)
    requires OpenedOn(s, base, files) && n <= |files| && s.backend.disk.Keys <= b.disk.Keys
    ensures var names := VictimObjects(RecordsOf(s.mode, base, files[..n]));
      AnyError(b, names, refusing) <==> exists o :: o in names && o in refusing
  {
    hide DiskOf, RecordsOf, VictimObjects, AnyError, Distinct;
    var victims := RecordsOf(s.mode, base, files[..n]);
    RecordNames(s.mode, base, files[..n]);
    assert forall i :: 0 <= i < n ==> victims[i].name == files[..n][i].name == files[i].name;
    VictimsDistinct(victims);
    VictimsWerePresent(s.mode, base, files, n);
    AnyErrorIff(b, VictimObjects(victims), refusing);
  }

  lemma {:induction false} PrefixRecords(mode: ReplicationMode, base: set<Gtid>, files: seq<FileLog>, n: nat)
    requires n <= |files|
    ensures RecordsOf(mode, base, files)[..n] == RecordsOf(mode, base, files[..n])
  {
    hide FileRecord, AllGtids;
    var k := |files| - 1;
    if n == |files| {
      assert files[..n] == files;
    } else {
      PrefixRecords(mode, base, files[..k], n);
      assert files[..k][..n] == files[..n];
    }
  }

  lemma VictimsWerePresent(mode: ReplicationMode, base: set<Gtid>, files: seq<FileLog>, n: nat)
    requires DistinctNames(files) && n <= |files|
    ensures forall o :: o in VictimObjects(RecordsOf(mode, base, files[..n])) ==> o in DiskOf(mode, base, files)
  {
    hide DiskOf, RecordsOf, IndexText, VictimObjects;
    DiskOfHolds(mode, base, files);
    forall o | o in VictimObjects(RecordsOf(mode, base, files[..n]))
      ensures o in DiskOf(mode, base, files)
    {
      VictimNames(mode, base, files[..n], o);
      SuffixNames(files, n);
      InNames(files, o);
    }
  }

  lemma PurgeDisks(s: State, base: set<Gtid>, files: seq<FileLog>, n: nat, b: Backend, r: Backend,
                   names: seq<ObjectName>)
    requires OpenedOn(s, base, files) && 0 < n < |files|
    requires b == s.backend.Put(BinlogIndex, Text(IndexText(FileNames(files[n..]))))
    requires names == VictimObjects(RecordsOf(s.mode, base, files[..n]))
    requires Thinned(r.disk, b.disk, names) && r.synced == b.synced && b.trace <= r.trace
    requires forall j :: |b.trace| <= j < |r.trace| ==>
      Thinned(r.trace[j].disk, b.disk, names) && r.trace[j].synced == b.synced
    ensures PurgeDisk(r.disk, s.mode, base, files, n)
    ensures var t := Barrier(r).trace;
      && s.backend.trace <= t
      && forall j :: |s.backend.trace| <= j < |t| ==>
           && PurgeDisk(t[j].disk, s.mode, base, files, n)
           && (t[j].synced == s.backend.disk || PurgeDisk(t[j].synced, s.mode, base, files, n))
  {
    hide DiskOf, RecordsOf, IndexText, AllGtids, DistinctNames, VictimObjects, PurgeDisk;
    var t0 := |s.backend.trace|;
    var t := Barrier(r).trace;
    assert Thinned(b.disk, b.disk, names);
    ThinnedIsPurgeDisk(b.disk, s.mode, base, files, n);
    ThinnedIsPurgeDisk(r.disk, s.mode, base, files, n);
    assert b.trace == s.backend.trace + [Snap(b.disk, s.backend.synced), Snap(b.disk, b.disk)];
    forall j | t0 <= j < |t|
      ensures PurgeDisk(t[j].disk, s.mode, base, files, n)
      ensures t[j].synced == s.backend.disk || PurgeDisk(t[j].synced, s.mode, base, files, n)
    {
      if j < |b.trace| {
        assert t[j] == b.trace[j];
      } else if j < |r.trace| {
        assert t[j] == r.trace[j];
        ThinnedIsPurgeDisk(r.trace[j].disk, s.mode, base, files, n);
      }
    }
  }

  /**
   * Purge is atomic: for any crash point, any set of refused removals and any un-fsynced removals
   * undone, a restart refuses the directory or finds the whole storage of before the purge, or the
   * whole storage of after it with the GTID chain continued.
   */
  lemma PurgeIsAtomic(s: State, base: set<Gtid>, files: seq<FileLog>, target: Name, refusing: set<ObjectName>,
                      snap: Snap, img: Disk, construction: ConstructionMode)
    requires OpenedOn(s, base, files) && PurgeBinlogs(s, target, refusing).Ok?
    requires CrashPoint(s, PurgeBinlogs(s, target, refusing).value.state, snap) && CrashImage(snap, img)
    requires !Load(img, s.mode, construction).Refused?
    ensures
      var n := |PurgeBinlogs(s, target, refusing).value.removed|;
      && 0 < n < |files| && files[n - 1].name == target
      && (img == DiskOf(s.mode, base, files) || img == DiskOf(s.mode, AllGtids(base, files[..n]), files[n..]))
  {
    hide DiskOf, PurgeBinlogs, Load, CrashImage, AllGtids, PurgeDisk, Mixture, AgreeOffIndex, RecordsOf;
    PurgeTrace(s, base, files, target, refusing);
    PurgeSucceedsIff(s, base, files, target, refusing);
    var r := PurgeBinlogs(s, target, refusing).value;
    var n := |r.removed|;
    PurgeImage(snap, img, s.mode, base, files, n);
    SuffixNames(files, n);
    AcceptedMixture(img, s.mode, construction, base, files, AllGtids(base, files[..n]), files[n..]);
  }

  /** The system will refuse to remove some object of the files up to and including the target. */
  ghost predicate WillRefuse(s: State, target: Name, refusing: set<ObjectName>) {
    var n := IndexOfName(s.records, target) + 1;
    n <= |s.records| && exists o :: o in VictimObjects(s.records[..n]) && o in refusing
  }

  /**
   * After a finished purge the storage reopens iff the system refused to remove no object of a victim, and then
   * as the shorter log; the warning says which it is.
   */
  lemma PurgedReopensIff(s: State, base: set<Gtid>, files: seq<FileLog>, target: Name, refusing: set<ObjectName>)
    requires OpenedOn(s, base, files) && NewlineFree(files) && PurgeBinlogs(s, target, refusing).Ok?
    ensures
      var r := PurgeBinlogs(s, target, refusing).value;
      var n := IndexOfName(s.records, target) + 1;
      && 0 < n < |files| && files[n - 1].name == target && |r.removed| == n
      && (!WillRefuse(s, target, refusing) <==> Load(r.state.backend.disk, s.mode, Streaming).Opened?)
      && (!WillRefuse(s, target, refusing)
          <==> r.state.backend.disk == DiskOf(s.mode, AllGtids(base, files[..n]), files[n..]))
      && (WillRefuse(s, target, refusing) <==> r.warning)
      && r.state.backend.synced == r.state.backend.disk
  {
    hide DiskOf, Load, AllGtids, RecordsOf, IndexText, VictimObjects, RemoveAll, DistinctNames, AnyError;
    PurgeTrace(s, base, files, target, refusing);
    PurgeSucceedsIff(s, base, files, target, refusing);
    var r := PurgeBinlogs(s, target, refusing).value;
    var n := |r.removed|;
    SuffixNames(files, n);
    var rest, base' := files[n..], AllGtids(base, files[..n]);
    assert NewlineFree(rest);
    LoadOfDisk(s.mode, base', rest, Streaming);
    var d := r.state.backend.disk;
    LeftoversIff(d, s.mode, base, files, n);
    if Load(d, s.mode, Streaming).Opened? {
      var snap := Snap(d, d);
      PurgeImage(snap, d, s.mode, base, files, n);
      AcceptedMixture(d, s.mode, Streaming, base, files, base', rest);
      NotBothIndexes(d, s.mode, base, files, n);
    }
  }

  /** A finished purge is durable: what a crash leaves after it, if accepted, is the shorter storage. */
  lemma PurgeIsDurable(s: State, base: set<Gtid>, files: seq<FileLog>, target: Name, refusing: set<ObjectName>,
                       img: Disk)
    requires OpenedOn(s, base, files) && NewlineFree(files) && PurgeBinlogs(s, target, refusing).Ok?
    requires var b := PurgeBinlogs(s, target, refusing).value.state.backend;
      CrashImage(Snap(b.disk, b.synced), img) && !WillRefuse(s, target, refusing)
    requires !Load(img, s.mode, Streaming).Refused?
    ensures var n := IndexOfName(s.records, target) + 1;
      n < |files| && img == DiskOf(s.mode, AllGtids(base, files[..n]), files[n..])
  {
    hide DiskOf, PurgeBinlogs, Load, CrashImage, AllGtids, WillRefuse, RecordsOf, DistinctNames;
    PurgedReopensIff(s, base, files, target, refusing);
    var n := IndexOfName(s.records, target) + 1;
    var base' := AllGtids(base, files[..n]);
    SuffixNames(files, n);
    ImageOfSynced(DiskOf(s.mode, base', files[n..]), img);
    DiskOfHolds(s.mode, base', files[n..]);
    AcceptedMixture(img, s.mode, Streaming, base', files[n..], base', files[n..]);
  }

  lemma ImageOfSynced(d: Disk, img: Disk)
    requires CrashImage(Snap(d, d), img)
    ensures Mixture(img, d, d) && img.Keys == d.Keys
  {
  }

  /** The objects of the longer log that the shorter one lacks are those of the victims. */
  lemma VictimIff(mode: ReplicationMode, base: set<Gtid>, files: seq<FileLog>, n: nat, o: ObjectName)
    requires DistinctNames(files) && n < |files|
    ensures var a, b := DiskOf(mode, base, files), DiskOf(mode, AllGtids(base, files[..n]), files[n..]);
      o in a && o !in b <==> o in VictimObjects(RecordsOf(mode, base, files[..n]))
  {
    hide DiskOf, RecordsOf, IndexText, AllGtids, VictimObjects, HasFile;
    SuffixNames(files, n);
    DiskOfHolds(mode, base, files);
    DiskOfHolds(mode, AllGtids(base, files[..n]), files[n..]);
    VictimNames(mode, base, files[..n], o);
    InNames(files, o);
    InNames(files[n..], o);
  }

  /** A purge disk is the shorter log's disk iff no victim object is left on it. */
  lemma LeftoversIff(d: Disk, mode: ReplicationMode, base: set<Gtid>, files: seq<FileLog>, n: nat)
    requires DistinctNames(files) && n < |files| && PurgeDisk(d, mode, base, files, n)
    ensures d == DiskOf(mode, AllGtids(base, files[..n]), files[n..])
       <==> forall o :: o in VictimObjects(RecordsOf(mode, base, files[..n])) ==> o !in d
  {
    hide DiskOf, RecordsOf, AllGtids, VictimObjects, DistinctNames;
    SuffixAgrees(mode, base, files, n);
    var a, b := DiskOf(mode, base, files), DiskOf(mode, AllGtids(base, files[..n]), files[n..]);
    forall o
      ensures o in a && o !in b <==> o in VictimObjects(RecordsOf(mode, base, files[..n]))
    {
      VictimIff(mode, base, files, n, o);
    }
  }

  lemma NotBothIndexes(d: Disk, mode: ReplicationMode, base: set<Gtid>, files: seq<FileLog>, n: nat)
    requires DistinctNames(files) && NewlineFree(files) && 0 < n < |files| && PurgeDisk(d, mode, base, files, n)
    ensures d != DiskOf(mode, base, files)
  {
    hide DiskOf, RecordsOf, IndexText, AllGtids, LoadIndex;
    DiskOfHolds(mode, base, files);
    SuffixNames(files, n);
    DiskOfHolds(mode, AllGtids(base, files[..n]), files[n..]);
    IndexOfFiles(files);
    IndexOfFiles(files[n..]);
    assert NewlineFree(files[n..]);
    assert |FileNames(files)| != |FileNames(files[n..])|;
  }
}
