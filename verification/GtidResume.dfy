/** A dump by GTID set: the server's choice of file and of transactions continues exactly where the store ends. */
module GtidResume {
  import opened Prelude
  import opened ReaderContext
  import opened Streaming
  import opened Alignment
  import opened Connections
  import SM = StorageModel

  /** The GTIDs of the transactions that begin among these events. */
  ghost function Starts(events: seq<Event>): set<Gtid> {
    set i | 0 <= i < |events| && events[i].IsGtid() && events[i].gtid.Some? :: events[i].gtid.value
  }

  /** The GTIDs the PREVIOUS_GTIDS event of source file j stands for. */
  ghost function Prior(src: seq<SrcFile>, base: set<Gtid>, j: nat): set<Gtid>
    requires j <= |src|
  {
    if j == 0 then base else Prior(src, base, j - 1) + Starts(src[j - 1].events)
  }

  /** The source never uses a GTID twice. */
  ghost predicate FreshGtids(src: seq<SrcFile>, base: set<Gtid>) {
    forall j, k ::
      0 <= j < |src| && 0 <= k < |src[j].events| && src[j].events[k].IsGtid() && src[j].events[k].gtid.Some? ==>
      src[j].events[k].gtid.value !in Prior(src, base, j) + Starts(src[j].events[..k])
  }

  // ----- the server --------------------------------------------------------------------

  /** The newest of the first n files whose previous GTIDs the client has all. */
  ghost function Newest(src: seq<SrcFile>, base: set<Gtid>, known: set<Gtid>, n: nat): (r: Option<nat>)
    requires n <= |src|
    ensures r.Some? ==> r.value < n && Prior(src, base, r.value) <= known
    ensures r.Some? ==> forall x :: r.value < x < n ==> !(Prior(src, base, x) <= known)
    ensures r.None? ==> forall x :: 0 <= x < n ==> !(Prior(src, base, x) <= known)
  {
    if n == 0 then None
    else if Prior(src, base, n - 1) <= known then Some(n - 1)
    else Newest(src, base, known, n - 1)
  }

  ghost predicate Skips(known: set<Gtid>, skipping: bool, e: Event) {
    if e.IsGtid() then e.gtid.Some? && e.gtid.value in known
    else e.code.Other? && skipping
  }

  /** The events of a file without the transactions the client has. */
  ghost function Unknown(events: seq<Event>, known: set<Gtid>, skipping: bool): seq<Event>
    decreases |events|
  {
    if events == [] then []
    else
      var skip := Skips(known, skipping, events[0]);
      (if skip then [] else [events[0]]) + Unknown(events[1..], known, skip)
  }

  ghost function UnknownRest(src: seq<SrcFile>, known: set<Gtid>, j: nat): seq<Event>
    requires j <= |src|
    decreases |src| - j
  {
    if j == |src| then []
    else
      [ArtificialRotate(src[j].name, MAGIC_OFFSET)] + Unknown(src[j].events, known, false)
      + UnknownRest(src, known, j + 1)
  }

  /** What a server sends to a client that has the given GTIDs; None when it has purged too much. */
  ghost function ServeGtids(src: seq<SrcFile>, base: set<Gtid>, known: set<Gtid>): Option<seq<Event>> {
    var j := Newest(src, base, known, |src|);
    if j.None? then None else Some(UnknownRest(src, known, j.value))
  }

  /** The active file of a running server has no terminator yet. */
  ghost predicate Active(src: seq<SrcFile>) {
    src != [] && !PhaseOf(GtidBased, src[|src| - 1].events).Ended?
  }

  // ----- transactions and their GTIDs --------------------------------------------------

  ghost predicate Between(p: Phase) {
    p.AtStart? || p.Ended? || (p.InTxn? && p.seen == p.expected)
  }

  /** The transaction an event belongs to has begun after any earlier transaction end. */
  lemma {:induction false} BeganAfter(f: SrcFile, k: nat, y: nat) returns (i: nat)
    requires GoodFile(GtidBased, f) && k <= y < |f.events|
    requires Between(PhaseOf(GtidBased, f.events[..k]))
    requires PhaseOf(GtidBased, f.events[..y + 1]).InTxn?
    ensures k <= i <= y && f.events[i].IsGtid() && f.events[i].gtid == PhaseOf(GtidBased, f.events[..y + 1]).gtid
    decreases y
  {
    hide GoodFile, PhaseOf;
    GoodEvents(GtidBased, f, y);
    if f.events[y].IsGtid() {
      i := y;
    } else {
      assert y != k;
      i := BeganAfter(f, k, y - 1);
    }
  }

  lemma GtidsBegan(f: SrcFile, k: nat, n: nat)
    requires GoodFile(GtidBased, f) && k <= n <= |f.events|
    requires Between(PhaseOf(GtidBased, f.events[..k]))
    ensures SM.Gtids(Copy(GtidBased, f.events[..n])[k..]) <= Starts(f.events[k..n])
  {
    hide GoodFile, PhaseOf;
    var evs := Copy(GtidBased, f.events[..n])[k..];
    forall g | g in SM.Gtids(evs) ensures g in Starts(f.events[k..n]) {
      var x :| 0 <= x < |evs| && evs[x].boundary && evs[x].gtid == Some(g);
      var y := k + x;
      CopyAt(f.events[..n], y);
      assert f.events[..n][..y + 1] == f.events[..y + 1];
      var i := BeganAfter(f, k, y);
      assert f.events[k..n][i - k] == f.events[i];
    }
  }

  lemma CopyAt(events: seq<Event>, y: nat)
    requires y < |events|
    ensures Copy(GtidBased, events)[y] == StoredAs(PhaseOf(GtidBased, events[..y + 1]), events[y])
  {
    CopyPrefix(GtidBased, events, y + 1);
    CopySnoc(GtidBased, events, y);
  }

  ghost function Pending(p: Phase): set<Gtid> {
    if p.InTxn? && p.seen < p.expected && p.gtid.Some? then {p.gtid.value} else {}
  }

  lemma StartsSnoc(events: seq<Event>, e: Event)
    ensures Starts(events + [e]) == Starts(events) + (if e.IsGtid() && e.gtid.Some? then {e.gtid.value} else {})
  {
    var all := events + [e];
    assert all[|events|] == e;
    forall g | g in Starts(events) ensures g in Starts(all) {
      var i :| 0 <= i < |events| && events[i].IsGtid() && events[i].gtid == Some(g);
      assert all[i] == events[i];
    }
  }

  /** Every transaction that has begun is stored or is the pending one. */
  lemma {:induction false} BegunIsStored(f: SrcFile, n: nat)
    requires GoodFile(GtidBased, f) && n <= |f.events|
    ensures Starts(f.events[..n])
         <= SM.Gtids(Copy(GtidBased, f.events[..n])) + Pending(PhaseOf(GtidBased, f.events[..n]))
  {
    hide GoodFile, PhaseOf, Copy, NextPhase, StoredAs, Starts, Pending, SM.Gtids;
    if n == 0 {
      NothingBegun(f);
    } else {
      var e := f.events[n - 1];
      BegunIsStored(f, n - 1);
      GoodEvents(GtidBased, f, n - 1);
      CopySnoc(GtidBased, f.events, n - 1);
      assert f.events[..n] == f.events[..n - 1] + [e];
      StartsSnoc(f.events[..n - 1], e);
      var p := PhaseOf(GtidBased, f.events[..n - 1]);
      var ev := StoredAs(NextPhase(GtidBased, p, e), e);
      SM.GtidsConcat(Copy(GtidBased, f.events[..n - 1]), [ev]);
      PendingStep(p, e);
    }
  }

  lemma NothingBegun(f: SrcFile)
    ensures Starts(f.events[..0]) == {}
  {
  }

  lemma PendingStep(p: Phase, e: Event)
    requires !NextPhase(GtidBased, p, e).Bad?
    ensures var q := NextPhase(GtidBased, p, e);
      Pending(p) + (if e.IsGtid() && e.gtid.Some? then {e.gtid.value} else {})
      <= SM.Gtids([StoredAs(q, e)]) + Pending(q)
  {
    SM.GtidsOne(StoredAs(NextPhase(GtidBased, p, e), e));
  }

  /** A prefix that ends with a transaction stores exactly the transactions it begins. */
  lemma PrefixGtids(f: SrcFile, k: nat)
    requires GoodFile(GtidBased, f) && k <= |f.events|
    requires SM.Complete(Copy(GtidBased, f.events[..k])) || k == |f.events|
    ensures SM.Gtids(Copy(GtidBased, f.events[..k])) == Starts(f.events[..k])
  {
    hide PhaseOf, Copy, Starts, SM.Gtids;
    if k > 0 {
      if k < |f.events| {
        StoredPhase(GtidBased, f, k);
      } else {
        assert f.events[..k] == f.events;
      }
    }
    AtFirst(f);
    BegunIsStored(f, k);
    GtidsBegan(f, 0, k);
    assert f.events[0..k] == f.events[..k];
    assert Copy(GtidBased, f.events[..k])[0..] == Copy(GtidBased, f.events[..k]);
  }

  lemma AtFirst(f: SrcFile)
    ensures PhaseOf(GtidBased, f.events[..0]).AtStart?
  {
  }

  lemma WholeFileGtids(f: SrcFile)
    requires GoodFile(GtidBased, f)
    ensures SM.Gtids(Copy(GtidBased, f.events)) == Starts(f.events)
  {
    assert f.events[..|f.events|] == f.events;
    PrefixGtids(f, |f.events|);
  }

  lemma {:induction false} PriorMonotone(src: seq<SrcFile>, base: set<Gtid>, a: nat, b: nat)
    requires a <= b <= |src|
    ensures Prior(src, base, a) <= Prior(src, base, b)
  {
    if a < b { PriorMonotone(src, base, a, b - 1); }
  }

  lemma {:induction false} GapGtids(src: seq<SrcFile>, base: set<Gtid>, a: nat, b: nat)
    requires GoodSource(GtidBased, src) && AllGaps(GtidBased, src, a, b)
    ensures a <= b <= |src| && Prior(src, base, b) == Prior(src, base, a)
    decreases b
  {
    hide GoodFile, Copy, Starts, SM.Gtids;
    if a < b {
      GapGtids(src, base, a, b - 1);
      WholeFileGtids(src[b - 1]);
    }
  }

  /** When everything before file j has been taken, the stored GTIDs are the previous GTIDs of file j. */
  lemma {:induction false} TakenGtids(files: seq<FileLog>, src: seq<SrcFile>, at: seq<nat>, base: set<Gtid>, j: nat)
    requires GoodSource(GtidBased, src) && Aligned(GtidBased, files, src, at) && TakenUpTo(GtidBased, files, src, at, j)
    ensures j <= |src| && SM.AllGtids(base, files) == Prior(src, base, j)
    decreases |files|
  {
    hide GoodFile, Copy, Starts, SM.Gtids, AllGaps;
    if files == [] {
      GapGtids(src, base, 0, j);
    } else {
      var n := |files| - 1;
      var m := at[n];
      TakenGtids(files[..n], src, at[..n], base, m);
      GapGtids(src, base, m + 1, j);
      WholeFileGtids(src[m]);
      var all, k := Copy(GtidBased, src[m].events), |files[n].evs|;
      assert all == files[n].evs + all[k..];
      SM.GtidsConcat(files[n].evs, all[k..]);
    }
  }

  /** The stored GTIDs are those before the last stored file and those of its stored part. */
  lemma KnownGtids(log: Log, src: seq<SrcFile>, at: seq<nat>, base: set<Gtid>)
    requires GoodSource(GtidBased, src) && Aligned(GtidBased, log.files, src, at) && log.files != []
    ensures var m, k := at[|at| - 1], |LastFile(log).evs|;
      && m < |src| && k <= |src[m].events|
      && SM.AllGtids(base, log.files) == Prior(src, base, m) + Starts(src[m].events[..k])
  {
    hide GoodFile, Copy, Starts, SM.Gtids, AllGaps;
    var n := |log.files| - 1;
    var m, k := at[n], |LastFile(log).evs|;
    TakenGtids(log.files[..n], src, at[..n], base, m);
    CopyPrefix(GtidBased, src[m].events, k);
    assert LastFile(log).evs == Copy(GtidBased, src[m].events)[..k];
    PrefixGtids(src[m], k);
  }

  // ----- what the server leaves out ----------------------------------------------------

  lemma StartsParts(events: seq<Event>, k: nat)
    requires k <= |events|
    ensures Starts(events) == Starts(events[..k]) + Starts(events[k..])
  {
    forall g | g in Starts(events) ensures g in Starts(events[..k]) + Starts(events[k..]) {
      var i :| 0 <= i < |events| && events[i].IsGtid() && events[i].gtid == Some(g);
      if i < k { assert events[..k][i] == events[i]; } else { assert events[k..][i - k] == events[i]; }
    }
  }

  /** A file with none of the known transactions is sent whole. */
  lemma {:induction false} UnknownAll(events: seq<Event>, known: set<Gtid>)
    requires Starts(events) !! known
    ensures Unknown(events, known, false) == events
    decreases |events|
  {
    if events != [] {
      StartsParts(events, 1);
      UnknownAll(events[1..], known);
      assert events[0].IsGtid() && events[0].gtid.Some? ==> events[0].gtid.value in Starts(events);
    }
  }

  lemma FreshFile(src: seq<SrcFile>, base: set<Gtid>, j: nat, k: nat)
    requires FreshGtids(src, base) && j < |src| && k <= |src[j].events|
    ensures Starts(src[j].events[k..]) !! Prior(src, base, j) + Starts(src[j].events[..k])
  {
    hide Prior;
    var events := src[j].events;
    forall g | g in Starts(events[k..]) ensures g !in Prior(src, base, j) + Starts(events[..k]) {
      var x :| 0 <= x < |events[k..]| && events[k..][x].IsGtid() && events[k..][x].gtid == Some(g);
      var i := k + x;
      assert events[i] == events[k..][x];
      StartsParts(events[..i], k);
      assert events[..i][..k] == events[..k];
    }
  }

  lemma {:induction false} RestIsUnknown(src: seq<SrcFile>, base: set<Gtid>, known: set<Gtid>, j: nat)
    requires FreshGtids(src, base) && j <= |src| && known <= Prior(src, base, j)
    ensures UnknownRest(src, known, j) == Rest(src, j)
    decreases |src| - j
  {
    hide FreshGtids, Starts, Unknown;
    if j < |src| {
      FreshFile(src, base, j, 0);
      assert src[j].events[0..] == src[j].events;
      UnknownAll(src[j].events, known);
      RestIsUnknown(src, base, known, j + 1);
    }
  }

  lemma LaterPhases(f: SrcFile, i: nat)
    requires GoodFile(GtidBased, f) && 2 <= i <= |f.events|
    ensures !PhaseOf(GtidBased, f.events[..i]).AtStart? && !PhaseOf(GtidBased, f.events[..i]).Described?
  {
    hide GoodFile, PhaseOf;
    GoodEvents(GtidBased, f, i - 1);
    GoodEvents(GtidBased, f, i - 2);
  }

  /** From a transaction the client has, everything is left out up to the end of the stored part. */
  lemma {:induction false} SkipsStored(f: SrcFile, known: set<Gtid>, i: nat, k: nat, skipping: bool)
    requires GoodFile(GtidBased, f) && 2 <= i <= k <= |f.events| && PhaseOf(GtidBased, f.events[..k]).InTxn?
    requires Starts(f.events[..k]) <= known && (skipping || (i < k && f.events[i].IsGtid()))
    ensures Unknown(f.events[i..], known, skipping) == Unknown(f.events[k..], known, true)
    decreases k - i
  {
    hide GoodFile, PhaseOf;
    if i < k {
      var e := f.events[i];
      GoodEvents(GtidBased, f, i);
      LaterPhases(f, i);
      if e.IsTerminator() {
        TerminatorIsLast(GtidBased, f, i);
        assert false;
      }
      assert e.IsGtid() ==> f.events[..k][i] == e;
      assert f.events[i..][1..] == f.events[i + 1..];
      SkipsStored(f, known, i + 1, k, true);
    }
  }

  /** A partly stored file is sent without its stored transactions. */
  lemma SendsTheRest(f: SrcFile, known: set<Gtid>, k: nat)
    requires GoodFile(GtidBased, f) && 2 < k <= |f.events|
    requires PhaseOf(GtidBased, f.events[..k]).InTxn? && SM.Complete(Copy(GtidBased, f.events[..k]))
    requires Starts(f.events[..k]) <= known && Starts(f.events[k..]) !! known
    ensures Unknown(f.events, known, false) == f.events[..2] + f.events[k..]
  {
    hide GoodFile, PhaseOf, Starts, Copy, Unknown;
    FirstPhases(GtidBased, f);
    FirstBegins(f, k);
    KeepsPreamble(f.events, known);
    SkipsStored(f, known, 2, k, false);
    AfterStored(f, known, k);
  }

  lemma KeepsPreamble(events: seq<Event>, known: set<Gtid>)
    requires |events| >= 2 && events[0].code.FormatDescription? && events[1].code.PreviousGtids?
    ensures Unknown(events, known, false) == events[..2] + Unknown(events[2..], known, false)
  {
    assert Unknown(events, known, false) == [events[0]] + Unknown(events[1..], known, false);
    assert events[1..][1..] == events[2..] && events[1..][0] == events[1];
  }

  lemma FirstBegins(f: SrcFile, k: nat)
    requires GoodFile(GtidBased, f) && 2 < k <= |f.events| && PhaseOf(GtidBased, f.events[..k]).InTxn?
    ensures f.events[2].IsGtid()
  {
    hide GoodFile, PhaseOf;
    FirstPhases(GtidBased, f);
    GoodEvents(GtidBased, f, 2);
    if f.events[2].IsTerminator() {
      TerminatorIsLast(GtidBased, f, 2);
    }
  }

  lemma AfterStored(f: SrcFile, known: set<Gtid>, k: nat)
    requires GoodFile(GtidBased, f) && 2 < k <= |f.events| && SM.Complete(Copy(GtidBased, f.events[..k]))
    requires Starts(f.events[k..]) !! known
    ensures Unknown(f.events[k..], known, true) == f.events[k..]
  {
    hide GoodFile, PhaseOf, Starts, Copy;
    UnknownAll(f.events[k..], known);
    if k < |f.events| {
      StoredPhase(GtidBased, f, k);
      GoodEvents(GtidBased, f, k);
    }
  }

  // ----- resuming ----------------------------------------------------------------------

  lemma NewerFile(log: Log, src: seq<SrcFile>, at: seq<nat>, base: set<Gtid>, j: nat)
    requires GoodSource(GtidBased, src) && FreshGtids(src, base) && AtRest(GtidBased, log, src, at)
    requires j < |src| && Prior(src, base, j) <= SM.AllGtids(base, log.files)
    requires log.files == [] || at[|at| - 1] < j
    ensures TakenUpTo(GtidBased, log.files, src, at, j)
  {
    hide GoodFile, Copy, Starts, SM.Gtids, FreshGtids;
    var known := SM.AllGtids(base, log.files);
    if log.files == [] {
      NothingBetween(src, base, known, 0, j);
    } else {
      KnownGtids(log, src, at, base);
      var m, k := at[|at| - 1], |LastFile(log).evs|;
      var events := src[m].events;
      StartsParts(events, k);
      NothingBetween(src, base, known, m + 1, j);
      PriorMonotone(src, base, m + 1, j);
      FreshFile(src, base, m, k);
      assert Starts(events[k..]) == {};
      LeftoverGtids(src[m], log, k);
    }
  }

  lemma LeftoverGtids(f: SrcFile, log: Log, k: nat)
    requires GoodFile(GtidBased, f) && log.files != [] && HoldsPrefix(GtidBased, LastFile(log), f)
    requires k == |LastFile(log).evs| <= |f.events| && Starts(f.events[k..]) == {}
    ensures SM.Gtids(Copy(GtidBased, f.events)[k..]) == {}
  {
    hide GoodFile, Copy, Starts, SM.Gtids, PhaseOf;
    CopyPrefix(GtidBased, f.events, k);
    assert LastFile(log).evs == Copy(GtidBased, f.events)[..k];
    if k > 0 { StoredPhase(GtidBased, f, k); }
    AtFirst(f);
    GtidsBegan(f, k, |f.events|);
    assert f.events[..|f.events|] == f.events && f.events[k..|f.events|] == f.events[k..];
  }

  /** Between the known part and a file whose previous GTIDs are all known there are no transactions. */
  lemma NothingBetween(src: seq<SrcFile>, base: set<Gtid>, known: set<Gtid>, a: nat, j: nat)
    requires GoodSource(GtidBased, src) && FreshGtids(src, base) && a <= j < |src|
    requires Prior(src, base, j) <= known <= Prior(src, base, a)
    ensures AllGaps(GtidBased, src, a, j)
  {
    hide GoodFile, Copy, Starts, SM.Gtids, FreshGtids;
    forall x | a <= x < j ensures SM.Gtids(Copy(GtidBased, src[x].events)) == {} {
      WholeFileGtids(src[x]);
      FreshFile(src, base, x, 0);
      assert src[x].events[0..] == src[x].events;
      PriorMonotone(src, base, a, x);
      PriorMonotone(src, base, x + 1, j);
      assert Starts(src[x].events) <= Prior(src, base, x + 1);
      assert Starts(src[x].events) == {};
    }
  }

  lemma EndedIsNotActive(log: Log, src: seq<SrcFile>, at: seq<nat>, base: set<Gtid>)
    requires GoodSource(GtidBased, src) && Active(src) && AtRest(GtidBased, log, src, at) && log.files != []
    requires Newest(src, base, SM.AllGtids(base, log.files), |src|) == Some(at[|at| - 1])
    ensures |at| == |log.files| && at[|at| - 1] < |src| && |LastFile(log).evs| <= |src[at[|at| - 1]].events|
    ensures !PhaseOf(GtidBased, src[at[|at| - 1]].events[..|LastFile(log).evs|]).Ended?
  {
    hide GoodFile, Copy, Starts, SM.Gtids, PhaseOf, Newest;
    KnownGtids(log, src, at, base);
    var m, k := at[|at| - 1], |LastFile(log).evs|;
    if PhaseOf(GtidBased, src[m].events[..k]).Ended? {
      if k < |src[m].events| {
        NotEndedYet(GtidBased, src[m], k);
        assert false;
      }
      assert src[m].events[..k] == src[m].events;
      assert Prior(src, base, m + 1) <= SM.AllGtids(base, log.files);
      assert false;
    }
  }

  /** The server continues exactly where the store ends: no transaction again, none left out. */
  lemma GtidResumes(log: Log, src: seq<SrcFile>, at: seq<nat>, base: set<Gtid>) returns (j: nat)
    requires GoodSource(GtidBased, src) && FreshGtids(src, base) && Active(src) && AtRest(GtidBased, log, src, at)
    ensures var stream := ServeGtids(src, base, SM.AllGtids(base, log.files));
      stream.Some? && Resumes(GtidBased, log, src, at, j, stream.value)
  {
    hide GoodFile, Copy, Starts, SM.Gtids, PhaseOf, Newest, FreshGtids, CurrentPosition, Unknown, Active;
    var known := SM.AllGtids(base, log.files);
    if log.files == [] {
      ActiveSource(src);
      assert Prior(src, base, 0) <= known;
      j := Newest(src, base, known, |src|).value;
      NewerFile(log, src, at, base, j);
      SendsWhole(src, base, known, 0, j);
    } else {
      KnownGtids(log, src, at, base);
      var m, k := at[|at| - 1], |LastFile(log).evs|;
      assert Prior(src, base, m) <= known;
      j := Newest(src, base, known, |src|).value;
      StartsParts(src[m].events, k);
      if m < j {
        NewerFile(log, src, at, base, j);
        SendsWhole(src, base, known, m + 1, j);
      } else {
        EndedIsNotActive(log, src, at, base);
        SendsFromStored(log, src, at, base);
      }
    }
  }

  lemma ActiveSource(src: seq<SrcFile>)
    requires Active(src)
    ensures src != []
  {
  }

  lemma SendsWhole(src: seq<SrcFile>, base: set<Gtid>, known: set<Gtid>, a: nat, j: nat)
    requires GoodSource(GtidBased, src) && FreshGtids(src, base) && a <= j < |src| && known <= Prior(src, base, a)
    ensures UnknownRest(src, known, j) == [ArtificialRotate(src[j].name, MAGIC_OFFSET)] + Remaining(src, j, 0)
    ensures |src[j].events| >= 2
  {
    hide GoodFile, FreshGtids, Unknown, Starts;
    PriorMonotone(src, base, a, j);
    RestIsUnknown(src, base, known, j);
    FirstTwo(GtidBased, src[j]);
    assert src[j].events[0..] == src[j].events;
  }

  /** The file that holds the last stored transaction is sent without its stored part. */
  lemma SendsPart(log: Log, f: SrcFile, known: set<Gtid>, k: nat)
    requires GoodFile(GtidBased, f) && log.files != [] && log.tail == [] && HoldsPrefix(GtidBased, LastFile(log), f)
    requires k == |LastFile(log).evs| <= |f.events| && !PhaseOf(GtidBased, f.events[..k]).Ended?
    requires Starts(f.events[..k]) <= known && Starts(f.events[k..]) !! known
    ensures |f.events| >= 2
    ensures Unknown(f.events, known, false) == (if k == 0 then [] else f.events[..2]) + f.events[k..]
  {
    hide GoodFile, Copy, Starts, PhaseOf, CurrentPosition, Unknown;
    FirstTwo(GtidBased, f);
    StoredPosition(GtidBased, log, f);
    if k == 0 {
      assert f.events[0..] == f.events && [] + f.events == f.events;
      UnknownAll(f.events, known);
    } else {
      StoredPhase(GtidBased, f, k);
      SendsTheRest(f, known, k);
    }
  }

  lemma SendsFromStored(log: Log, src: seq<SrcFile>, at: seq<nat>, base: set<Gtid>)
    requires GoodSource(GtidBased, src) && FreshGtids(src, base) && AtRest(GtidBased, log, src, at) && log.files != []
    requires |at| == |log.files| && at[|at| - 1] < |src| && |LastFile(log).evs| <= |src[at[|at| - 1]].events|
    requires !PhaseOf(GtidBased, src[at[|at| - 1]].events[..|LastFile(log).evs|]).Ended?
    ensures var j, known := at[|at| - 1], SM.AllGtids(base, log.files);
      Resumes(GtidBased, log, src, at, j, UnknownRest(src, known, j))
  {
    hide GoodFile, Copy, Starts, SM.Gtids, PhaseOf, FreshGtids, CurrentPosition, Unknown, HoldsPrefix, TakenUpTo;
    var known, j, k := SM.AllGtids(base, log.files), at[|at| - 1], |LastFile(log).evs|;
    var f := src[j];
    KnownGtids(log, src, at, base);
    FreshFile(src, base, j, k);
    KnownBefore(src, base, known, j, k);
    RestIsUnknown(src, base, known, j + 1);
    LastHoldsPrefix(GtidBased, log, src, at);
    hide Aligned;
    SendsPart(log, f, known, k);
    ResumeStream(log, src, at, j, known);
  }

  lemma KnownBefore(src: seq<SrcFile>, base: set<Gtid>, known: set<Gtid>, j: nat, k: nat)
    requires j < |src| && k <= |src[j].events| && known == Prior(src, base, j) + Starts(src[j].events[..k])
    ensures known <= Prior(src, base, j + 1)
  {
    hide Starts;
    StartsParts(src[j].events, k);
  }

  lemma ResumeStream(log: Log, src: seq<SrcFile>, at: seq<nat>, j: nat, known: set<Gtid>)
    requires |at| == |log.files| && log.files != [] && at[|at| - 1] == j < |src| && |src[j].events| >= 2
    requires |LastFile(log).evs| <= |src[j].events|
    requires var k := |LastFile(log).evs|;
      Unknown(src[j].events, known, false) == (if k == 0 then [] else src[j].events[..2]) + src[j].events[k..]
    requires UnknownRest(src, known, j + 1) == Rest(src, j + 1)
    ensures Resumes(GtidBased, log, src, at, j, UnknownRest(src, known, j))
  {
    hide Unknown, Rest, CurrentPosition, TakenUpTo;
    var k := |LastFile(log).evs|;
    var e := ArtificialRotate(src[j].name, MAGIC_OFFSET);
    var pre := if k == 0 then [] else src[j].events[..2];
    assert UnknownRest(src, known, j) == [e] + (pre + src[j].events[k..]) + Rest(src, j + 1);
    assert LeadIn(GtidBased, log, at, src, j) == [e] + pre;
  }
}
