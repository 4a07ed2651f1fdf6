/** app.cpp: the queries over a storage's records. */
module Search {
  import opened Prelude
  import opened Streaming
  import opened Alignment
  import opened GtidResume
  import SM = StorageModel

  // ----- by GTID set -------------------------------------------------------------------

  function Added(r: SM.Record): set<Gtid> {
    if r.added.Some? then r.added.value else {}
  }

  /** The records the loop takes, by number, and what it has not covered. */
  function Greedy(records: seq<SM.Record>, request: set<Gtid>): (seq<nat>, set<Gtid>) {
    if records == [] then ([], request)
    else
      var n := |records| - 1;
      var (taken, remaining) := Greedy(records[..n], request);
      if remaining * Added(records[n]) == {} then (taken, remaining)
      else (taken + [n], remaining - Added(records[n]))
  }

  /** handle_search_by_gtid_set. */
  method SearchByGtidSet(records: seq<SM.Record>, mode: ReplicationMode, request: set<Gtid>)
    returns (r: Result<seq<nat>>)
    ensures r.Ok? <==> records != [] && mode == GtidBased && Greedy(records, request).1 == {}
    ensures r.Ok? ==> r.value == Greedy(records, request).0
  {
    if records == [] || mode != GtidBased {
      return Err;
    }
    var remaining, taken := request, [];
    for i := 0 to |records|
      invariant (taken, remaining) == Greedy(records[..i], request)
    {
      assert records[..i + 1][..i] == records[..i];
      if remaining == {} {
        NothingMore(records, request, i);
        assert records[..|records|] == records;
        return Ok(taken);
      }
      if records[i].added.Some? && remaining * records[i].added.value != {} {
        remaining := remaining - records[i].added.value;
        taken := taken + [i];
      }
    }
    assert records[..|records|] == records;
    if remaining != {} {
      return Err;
    }
    r := Ok(taken);
  }

  lemma {:induction false} NothingMore(records: seq<SM.Record>, request: set<Gtid>, i: nat)
    requires i <= |records| && Greedy(records[..i], request).1 == {}
    ensures Greedy(records, request) == Greedy(records[..i], request)
    decreases |records|
  {
    if i == |records| {
      assert records[..i] == records;
    } else {
      var n := |records| - 1;
      assert records[..n][..i] == records[..i];
      NothingMore(records[..n], request, i);
    }
  }

  /** All GTIDs added by the numbered records. */
  ghost function Union(records: seq<SM.Record>, numbers: set<nat>): set<Gtid> {
    if records == [] then {}
    else
      var n := |records| - 1;
      Union(records[..n], numbers) + if n in numbers then Added(records[n]) else {}
  }

  ghost function All(records: seq<SM.Record>): set<Gtid> {
    if records == [] then {} else All(records[..|records| - 1]) + Added(records[|records| - 1])
  }

  ghost function Numbers(taken: seq<nat>): set<nat> {
    set i | i in taken
  }

  lemma SubtractDisjoint(a: set<Gtid>, b: set<Gtid>)
    ensures a * b == {} ==> a - b == a
  {
    if a * b == {} {
      forall g | g in a ensures g !in b { assert g !in a * b; }
    }
  }

  /** What is left over is what no record has. */
  lemma {:induction false} LeftOver(records: seq<SM.Record>, request: set<Gtid>)
    ensures Greedy(records, request).1 == request - All(records)
  {
    if records == [] {
      assert request - {} == request;
    } else {
      var n := |records| - 1;
      LeftOver(records[..n], request);
      var remaining, added := Greedy(records[..n], request).1, Added(records[n]);
      SubtractDisjoint(remaining, added);
      assert remaining - added == request - All(records);
    }
  }

  lemma {:induction false} InUnion(records: seq<SM.Record>, numbers: set<nat>, g: Gtid)
    ensures g in Union(records, numbers) <==> exists i :: 0 <= i < |records| && i in numbers && g in Added(records[i])
  {
    if records != [] {
      var n := |records| - 1;
      InUnion(records[..n], numbers, g);
      if i :| 0 <= i < |records| && i in numbers && g in Added(records[i]) {
        assert i < n ==> records[..n][i] == records[i];
      }
    }
  }

  /** The numbers are taken in order and only where the record has something of the request. */
  lemma {:induction false} TakenAre(records: seq<SM.Record>, request: set<Gtid>, i: nat)
    requires i in Greedy(records, request).0
    ensures i < |records| && Added(records[i]) * request != {}
    decreases |records|
  {
    var n := |records| - 1;
    LeftOver(records[..n], request);
    if i in Greedy(records[..n], request).0 {
      TakenAre(records[..n], request, i);
    }
  }

  lemma {:induction false} Covers(records: seq<SM.Record>, request: set<Gtid>, g: Gtid)
    requires g in request && g in All(records)
    ensures exists i :: 0 <= i < |records| && i in Greedy(records, request).0 && g in Added(records[i])
    decreases |records|
  {
    var n := |records| - 1;
    LeftOver(records[..n], request);
    if g in All(records[..n]) {
      Covers(records[..n], request, g);
      var i :| 0 <= i < n && i in Greedy(records[..n], request).0 && g in Added(records[..n][i]);
      assert records[..n][i] == records[i];
    } else {
      assert g in Greedy(records[..n], request).1 * Added(records[n]);
      assert Greedy(records, request).0 == Greedy(records[..n], request).0 + [n];
      assert n in Greedy(records, request).0;
    }
  }

  /** The search succeeds iff the storage has everything asked for, and then the files it names cover the request. */
  lemma SearchCovers(records: seq<SM.Record>, request: set<Gtid>)
    ensures Greedy(records, request).1 == {} <==> request <= All(records)
    ensures request <= All(records) ==> request <= Union(records, Numbers(Greedy(records, request).0))
  {
    LeftOver(records, request);
    assert request - All(records) == {} <==> request <= All(records) by {
      if request - All(records) == {} {
        forall g | g in request ensures g in All(records) {
          assert g !in request - All(records);
        }
      }
    }
    if request <= All(records) {
      var numbers := Numbers(Greedy(records, request).0);
      forall g | g in request ensures g in Union(records, numbers) {
        Covers(records, request, g);
        InUnion(records, numbers, g);
      }
    }
  }

  ghost predicate DisjointRecords(records: seq<SM.Record>) {
    forall i, j :: 0 <= i < j < |records| ==> Added(records[i]) !! Added(records[j])
  }

  /** With pairwise disjoint files the result is part of every cover: it is the one smallest cover. */
  lemma SearchIsMinimal(records: seq<SM.Record>, request: set<Gtid>, cover: set<nat>)
    requires DisjointRecords(records) && request <= Union(records, cover)
    ensures Numbers(Greedy(records, request).0) <= cover
  {
    forall i | i in Greedy(records, request).0 ensures i in cover {
      TakenAre(records, request, i);
      var g :| g in Added(records[i]) && g in request;
      InUnion(records, cover, g);
      var j :| 0 <= j < |records| && j in cover && g in Added(records[j]);
      assert i == j;
    }
  }

  /** Without disjointness a smaller cover can exist: the first file is taken although the second one suffices. */
  lemma GreedyIsNotAlwaysMinimal(a: SM.Record, b: SM.Record, g: Gtid, h: Gtid)
    requires g != h && a.added == Some({g}) && b.added == Some({g, h})
    ensures Greedy([a, b], {g, h}).0 == [0, 1] && {g, h} <= Union([a, b], {1})
  {
    assert [a, b][..1] == [a] && [a][..0] == [];
    assert Greedy([], {g, h}) == ([], {g, h});
    assert {g, h} * Added(a) == {g} && {g, h} - Added(a) == {h};
    assert Greedy([a], {g, h}) == ([] + [0], {h});
    assert {h} * Added(b) == {h};
    assert Union([a, b], {1}) == Union([a], {1}) + Added(b);
  }

  // ----- storages filled from a source -------------------------------------------------

  lemma {:induction false} AlignedAt(files: seq<FileLog>, src: seq<SrcFile>, at: seq<nat>, i: nat)
    requires Aligned(GtidBased, files, src, at) && i < |files|
    ensures |at| == |files| && at[i] < |src| && HoldsPrefix(GtidBased, files[i], src[at[i]])
    ensures i + 1 < |files| ==> at[i] < at[i + 1]
    decreases |files|
  {
    hide HoldsPrefix, AllGaps, Dropped;
    var n := |files| - 1;
    if i < n {
      AlignedAt(files[..n], src, at[..n], i);
    }
  }

  lemma {:induction false} AtIncreases(files: seq<FileLog>, src: seq<SrcFile>, at: seq<nat>, i: nat, j: nat)
    requires Aligned(GtidBased, files, src, at) && i < j < |files|
    ensures |at| == |files| && at[i] < at[j]
    decreases j - i
  {
    hide Aligned;
    AlignedAt(files, src, at, i);
    if i + 1 < j { AtIncreases(files, src, at, i + 1, j); }
  }

  lemma StoredStarts(f: FileLog, g: SrcFile)
    requires GoodFile(GtidBased, g) && HoldsPrefix(GtidBased, f, g)
    ensures SM.Gtids(f.evs) <= Starts(g.events)
  {
    hide GoodFile, Copy, Starts, SM.Gtids;
    var k := |f.evs|;
    CopyPrefix(GtidBased, g.events, k);
    assert f.evs == Copy(GtidBased, g.events)[..k];
    PrefixGtids(g, k);
    StartsParts(g.events, k);
  }

  /** Files stored from a source that never repeats a GTID are disjoint, so the search result is the smallest cover. */
  lemma StoredFilesAreDisjoint(files: seq<FileLog>, src: seq<SrcFile>, at: seq<nat>, base: set<Gtid>)
    requires GoodSource(GtidBased, src) && FreshGtids(src, base) && Aligned(GtidBased, files, src, at)
    ensures DisjointRecords(SM.RecordsOf(GtidBased, base, files))
  {
    hide GoodFile, Copy, Starts, SM.Gtids, Aligned, FreshGtids, SM.RecordsOf, HoldsPrefix;
    var records := SM.RecordsOf(GtidBased, base, files);
    forall i, j | 0 <= i < j < |records| ensures Added(records[i]) !! Added(records[j]) {
      SM.RecordAt(GtidBased, base, files, i);
      SM.RecordAt(GtidBased, base, files, j);
      AlignedAt(files, src, at, i);
      AlignedAt(files, src, at, j);
      AtIncreases(files, src, at, i, j);
      StoredStarts(files[i], src[at[i]]);
      StoredStarts(files[j], src[at[j]]);
      FreshFile(src, base, at[j], 0);
      assert src[at[j]].events[0..] == src[at[j]].events;
      PriorMonotone(src, base, at[i] + 1, at[j]);
    }
  }

  // ----- by timestamp ------------------------------------------------------------------

  /** handle_search_by_timestamp: the records before the first one that begins later. */
  method SearchByTimestamp(records: seq<SM.Record>, timestamp: int) returns (r: Result<nat>)
    ensures r.Ok? <==> records != [] && records[0].ts.min <= timestamp
    ensures r.Ok? ==> 0 < r.value <= |records| && (forall i :: 0 <= i < r.value ==> records[i].ts.min <= timestamp)
    ensures r.Ok? && r.value < |records| ==> records[r.value].ts.min > timestamp
  {
    if records == [] {
      return Err;
    }
    var n := 0;
    while n < |records| && records[n].ts.min <= timestamp
      invariant n <= |records| && forall i :: 0 <= i < n ==> records[i].ts.min <= timestamp
    {
      n := n + 1;
    }
    r := if n == 0 then Err else Ok(n);
  }
}
