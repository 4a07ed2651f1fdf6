/** Connections in rewrite mode store the same transactions in the same order as plain streaming. */
module RewriteSessions {
  import opened Prelude
  import opened BinlogNames
  import opened ReaderContext
  import opened Streaming
  import opened Alignment
  import opened Connections
  import opened GtidResume
  import opened Sessions
  import opened RewriteMode
  import opened RewriteJournal
  import opened RewriteCrashes
  import SM = StorageModel
  import SR = StorageRuns

  /** The loop of receive_binlog_events in rewrite mode. */
  ghost function RewriteFeed(cfg: Config, log: Log, c: Ctx, events: seq<Event>,
                             gens: seq<Generated>): Result<(Log, Ctx)>
    requires |gens| == |events|
    decreases |events|
  {
    if events == [] then Ok((log, c))
    else
      var r := RewriteEvent(cfg, log, c, events[0], gens[0]);
      if r.Err? then Err else RewriteFeed(cfg, r.value.0, r.value.1, events[1..], gens[1..])
  }

  /** The events it hands over to be written. */
  ghost function FeedNotes(cfg: Config, j: Journal, log: Log, c: Ctx, events: seq<Event>, gens: seq<Generated>): Journal
    requires |gens| == |events|
    decreases |events|
  {
    if events == [] then j
    else
      var r := RewriteEvent(cfg, log, c, events[0], gens[0]);
      var j1 := Handled(cfg, j, log, c, events[0], gens[0], Storing);
      if r.Err? then j1 else FeedNotes(cfg, j1, r.value.0, r.value.1, events[1..], gens[1..])
  }

  /** All source files have checksums, and nothing that is written exceeds its limits. */
  ghost predicate Allowed(cfg: Config, log: Log, c: Ctx, events: seq<Event>, gens: seq<Generated>)
    requires |gens| == |events|
    decreases |events|
  {
    events != [] ==>
      && (events[0].code.FormatDescription? ==> gens[0].checksums)
      && (!IsSkipped(events[0]) ==> AllFits(cfg, log, c, events[0], gens[0]))
      && var r := RewriteEvent(cfg, log, c, events[0], gens[0]);
         r.Ok? ==> Allowed(cfg, r.value.0, r.value.1, events[1..], gens[1..])
  }

  /** A source file without checksums ends the connection. */
  lemma {:induction false} ChecksumsRequired(cfg: Config, log: Log, c: Ctx, events: seq<Event>, gens: seq<Generated>)
    requires |gens| == |events| && RewriteFeed(cfg, log, c, events, gens).Ok?
    ensures forall i :: 0 <= i < |events| && events[i].code.FormatDescription? ==> gens[i].checksums
    decreases |events|
  {
    hide NewFile, ProcessEvent, NeedsFile, Relocated;
    if events != [] {
      var (log1, c1) := RewriteEvent(cfg, log, c, events[0], gens[0]).value;
      ChecksumsRequired(cfg, log1, c1, events[1..], gens[1..]);
      forall i | 0 <= i < |events| && events[i].code.FormatDescription? ensures gens[i].checksums {
        if i > 0 { assert events[1..][i - 1] == events[i] && gens[1..][i - 1] == gens[i]; }
      }
    }
  }

  ghost function IdOf(p: Phase): Option<Gtid> {
    if p.InTxn? then p.gtid else None
  }

  /** The rewriting store and a plain one have seen the same events. */
  ghost predicate Paired(cfg: Config, log: Log, c: Ctx, outs: seq<Output>, plain: Log, p: Phase) {
    && (p.InTxn? ==> p.seen <= p.expected && p.gtid.Some?)
    && Going(cfg, log, c, outs, Left(p), IdOf(p)) && Order(log.files) == Order(plain.files)
  }

  /** The marks made since the connection started: none before its first transaction, then at most one. */
  ghost predicate Tracks(start: seq<Output>, c: Ctx, outs: seq<Output>) {
    if c.IsFresh() then outs == start else Since(start, outs)
  }

  lemma TracksStep(start: seq<Output>, c: Ctx, outs: seq<Output>, c': Ctx, outs': seq<Output>)
    requires Tracks(start, c, outs) && MarksAfter(c, outs, outs') && !c'.IsFresh()
    ensures Tracks(start, c', outs') && Since(start, outs')
  {
    hide Since, SameMarks;
    if !c.IsFresh() { MarksStay(start, outs, outs'); }
  }

  // ----- one event on both sides -------------------------------------------------------

  /** What a source event means for its transaction. */
  lemma SourceStep(p: Phase, e: Event)
    requires !NextPhase(GtidBased, p, e).Bad? && e.size > 0
    requires p.InTxn? ==> p.seen <= p.expected && p.gtid.Some?
    ensures var q := NextPhase(GtidBased, p, e);
      && (q.InTxn? ==> q.seen <= q.expected && q.gtid.Some?)
      && (IsSkipped(e) ==> Left(p) == 0 && Left(q) == 0 && !q.InTxn?)
      && (!IsSkipped(e) ==> LeftAfter(Left(p), e) == Some(Left(q)) && IdAfter(IdOf(p), e) == IdOf(q) && q.InTxn?)
  {
  }

  lemma PlainOrder(plain: Log, c: Ctx, f: SrcFile, k: nat, plain': Log, c': Ctx)
    requires c.mode == c'.mode == GtidBased && Conn(plain, c, f, k) && k < |f.events|
    requires Conn(plain', c', f, k + 1) || (k + 1 == |f.events| && Closed(plain', c', f))
    requires SameBefore(plain, plain') && LastFile(plain).evs <= LastFile(plain').evs
    ensures var q := PhaseOf(GtidBased, f.events[..k + 1]);
      Order(plain'.files) == Order(plain.files)
        + if q.InTxn? && q.seen == q.expected && q.gtid.Some? then [q.gtid.value] else []
  {
    hide PhaseOf, Order, Copy, Offset;
    CopySnoc(GtidBased, f.events, k);
    assert k + 1 == |f.events| ==> f.events[..k + 1] == f.events;
    OrderGrows(plain, plain', StoredAs(PhaseOf(GtidBased, f.events[..k + 1]), f.events[k]));
  }

  /** An event inside a source file, on both sides. */
  lemma BothInFile(cfg: Config, start: seq<Output>, log: Log, c: Ctx, outs: seq<Output>, plain: Log, d: Ctx, f: SrcFile,
                   k: nat, g: Generated)
    returns (outs': seq<Output>)
    requires Tracks(start, c, outs)
    requires d.mode == GtidBased && Conn(plain, d, f, k) && k < |f.events| && GoodFile(GtidBased, f)
    requires Paired(cfg, log, c, outs, plain, PhaseOf(GtidBased, f.events[..k]))
    requires f.events[k].code.FormatDescription? ==> g.checksums
    requires !IsSkipped(f.events[k]) ==> AllFits(cfg, log, c, f.events[k], g)
    ensures ProcessEvent(plain, d, f.events[k]).Ok? && RewriteEvent(cfg, log, c, f.events[k], g).Ok?
    ensures var (log', c') := RewriteEvent(cfg, log, c, f.events[k], g).value;
      && Paired(cfg, log', c', outs', ProcessEvent(plain, d, f.events[k]).value.0,
                PhaseOf(GtidBased, f.events[..k + 1]))
      && Tracks(start, c', outs')
    ensures Events(outs') == Handled(cfg, Events(outs), log, c, f.events[k], g, Storing)
  {
    hide Events, HandledEvents, ProcessEvent, Tracks, MarksAfter, GoodFile, Going, NextPhase, PhaseOf, AllFits, Order,
      Conn, Closed;
    var e := f.events[k];
    GoodEvents(GtidBased, f, k);
    StepInFile(plain, d, f, k);
    var p := PhaseOf(GtidBased, f.events[..k]);
    SourceStep(p, e);
    var (plain', d') := ProcessEvent(plain, d, e).value;
    PlainOrder(plain, d, f, k, plain', d');
    outs' := outs;
    if IsSkipped(e) {
      GoingAtRest(cfg, log, c, outs, IdOf(p), IdOf(NextPhase(GtidBased, p, e)));
    } else {
      outs' := RewriteStep(cfg, log, c, outs, e, g, Left(p), IdOf(p));
      TracksStep(start, c, outs, RewriteEvent(cfg, log, c, e, g).value.1, outs');
      HandledIs(cfg, log, c, outs, e, g, Left(p), IdOf(p), Storing);
      hide Handled;
    }
  }

  lemma GoingAtRest(cfg: Config, log: Log, c: Ctx, outs: seq<Output>, id: Option<Gtid>, id': Option<Gtid>)
    requires Going(cfg, log, c, outs, 0, id)
    ensures Going(cfg, log, c, outs, 0, id')
  {
    hide Paused, Connected;
  }

  lemma EndPhase(f: SrcFile)
    requires GoodFile(GtidBased, f)
    ensures var p := PhaseOf(GtidBased, f.events[..|f.events|]); p.InTxn? ==> p.seen == p.expected
    ensures PhaseOf(GtidBased, f.events[..0]).AtStart?
  {
    assert f.events[..|f.events|] == f.events;
  }

  /** One more event of the server's stream, on both sides. */
  lemma BothOnce(cfg: Config, start: seq<Output>, log: Log, c: Ctx, outs: seq<Output>, plain: Log, d: Ctx,
                 src: seq<SrcFile>, at: seq<nat>, j: nat, k: nat, rest: seq<Event>, g: Generated)
    returns (outs': seq<Output>, at': seq<nat>, j': nat, k': nat)
    requires d.mode == GtidBased && Settled(plain, d, src, at, j, k, rest) && GoodSource(GtidBased, src) && rest != []
    requires Tracks(start, c, outs) && Paired(cfg, log, c, outs, plain, PhaseOf(GtidBased, src[j].events[..k]))
    requires rest[0].code.FormatDescription? ==> g.checksums
    requires !IsSkipped(rest[0]) ==> AllFits(cfg, log, c, rest[0], g)
    ensures ProcessEvent(plain, d, rest[0]).Ok? && RewriteEvent(cfg, log, c, rest[0], g).Ok?
    ensures var (plain', d') := ProcessEvent(plain, d, rest[0]).value;
      var (log', c') := RewriteEvent(cfg, log, c, rest[0], g).value;
      && d'.mode == GtidBased && Settled(plain', d', src, at', j', k', rest[1..])
      && Tracks(start, c', outs') && Paired(cfg, log', c', outs', plain', PhaseOf(GtidBased, src[j'].events[..k']))
      && Order(plain.files) <= Order(plain'.files)
    ensures Events(outs') == Handled(cfg, Events(outs), log, c, rest[0], g, Storing)
  {
    hide Events, Tracks, ProcessEvent, GoodFile, Going, NextPhase, PhaseOf, AllFits, Order, Conn, Closed, Aligned,
      Remaining;
    RemainingHead(src, j, k);
    at', j', k' := OneMore(plain, d, src, at, j, k, rest);
    if k < |src[j].events| {
      outs' := BothInFile(cfg, start, log, c, outs, plain, d, src[j], k, g);
      StepInFile(plain, d, src[j], k);
      PlainOrder(plain, d, src[j], k, ProcessEvent(plain, d, rest[0]).value.0, ProcessEvent(plain, d, rest[0]).value.1);
    } else {
      outs' := outs;
      EndPhase(src[j]);
      EndPhase(src[j + 1]);
      GoingAtRest(cfg, log, c, outs, IdOf(PhaseOf(GtidBased, src[j].events[..k])), None);
      EnterOrder(plain, d, src, at, j);
      SkippedNotes(cfg, Events(outs), log, c, rest[0], g, Storing);
    }
  }

  lemma SkippedNotes(cfg: Config, j: Journal, log: Log, c: Ctx, e: Event, g: Generated, upto: Part)
    requires IsSkipped(e)
    ensures Handled(cfg, j, log, c, e, g, upto) == j
  {
  }

  lemma EnterOrder(plain: Log, d: Ctx, src: seq<SrcFile>, at: seq<nat>, j: nat)
    requires d.mode == GtidBased && j + 1 < |src| && Standing(plain, d, src, at, j, |src[j].events|)
    requires GoodSource(GtidBased, src)
    ensures ProcessEvent(plain, d, ArtificialRotate(src[j + 1].name, MAGIC_OFFSET)).Ok?
    ensures Order(ProcessEvent(plain, d, ArtificialRotate(src[j + 1].name, MAGIC_OFFSET)).value.0.files)
         == Order(plain.files)
  {
    hide ProcessEvent, GoodFile, Aligned, CanEnter;
    StandingBasics(plain, d, src, at, j, |src[j].events|);
    AlignedLength(GtidBased, plain.files, src, at);
    NewName(GtidBased, plain.files, src, at, j + 1);
    EndCanEnter(plain, d, src[j]);
    EnterNew(plain, d, src[j + 1].name);
    OrderSnoc(plain.files, SM.FileLog(src[j + 1].name, []));
  }

  /** However much of the rest arrives, both sides accept it and store the same transactions. */
  lemma {:induction false} BothFeed(cfg: Config, start: seq<Output>, log: Log, c: Ctx, outs: seq<Output>, plain: Log,
                                    d: Ctx, src: seq<SrcFile>, at: seq<nat>, j: nat, k: nat, rest: seq<Event>, n: nat,
                                    gens: seq<Generated>)
    returns (outs': seq<Output>, at': seq<nat>, j': nat, k': nat)
    requires d.mode == GtidBased && Settled(plain, d, src, at, j, k, rest) && GoodSource(GtidBased, src)
    requires n <= |rest| && |gens| == n && Allowed(cfg, log, c, rest[..n], gens)
    requires Tracks(start, c, outs) && Paired(cfg, log, c, outs, plain, PhaseOf(GtidBased, src[j].events[..k]))
    ensures Feed(plain, d, rest[..n]).Ok? && RewriteFeed(cfg, log, c, rest[..n], gens).Ok?
    ensures var (plain', d') := Feed(plain, d, rest[..n]).value;
      var (log', c') := RewriteFeed(cfg, log, c, rest[..n], gens).value;
      && d'.mode == GtidBased && Settled(plain', d', src, at', j', k', rest[n..])
      && Tracks(start, c', outs') && Paired(cfg, log', c', outs', plain', PhaseOf(GtidBased, src[j'].events[..k']))
    ensures Events(outs') == FeedNotes(cfg, Events(outs), log, c, rest[..n], gens)
    decreases n
  {
    hide Events, Handled, Tracks, Order, ProcessEvent, RewriteEvent, GoodSource, Paired, PhaseOf, AllFits, Standing,
      Remaining;
    StandingBasics(plain, d, src, at, j, k);
    outs', at', j', k' := outs, at, j, k;
    if n == 0 {
      assert rest[..0] == [] && rest[0..] == rest;
    } else {
      var some := rest[..n];
      assert some[0] == rest[0] && some[1..] == rest[1..][..n - 1] && rest[1..][n - 1..] == rest[n..];
      var outs1, at1, j1, k1 := BothOnce(cfg, start, log, c, outs, plain, d, src, at, j, k, rest, gens[0]);
      var (plain1, d1) := ProcessEvent(plain, d, rest[0]).value;
      var (log1, c1) := RewriteEvent(cfg, log, c, rest[0], gens[0]).value;
      outs', at', j', k' :=
        BothFeed(cfg, start, log1, c1, outs1, plain1, d1, src, at1, j1, k1, rest[1..], n - 1, gens[1..]);
    }
  }

  /** Lead-ins are skipped. */
  lemma {:induction false} SkipAll(cfg: Config, j: Journal, log: Log, c: Ctx, events: seq<Event>, gens: seq<Generated>)
    requires |gens| == |events| && Allowed(cfg, log, c, events, gens)
    requires forall i :: 0 <= i < |events| ==> IsSkipped(events[i])
    ensures RewriteFeed(cfg, log, c, events, gens) == Ok((log, c))
    ensures FeedNotes(cfg, j, log, c, events, gens) == j
    decreases |events|
  {
    hide AllFits, ProcessEvent, Handled;
    if events != [] {
      assert IsSkipped(events[0]);
      SkippedNotes(cfg, j, log, c, events[0], gens[0], Storing);
      SkipAll(cfg, j, log, c, events[1..], gens[1..]);
    }
  }

  lemma {:induction false} RewriteFeedConcat(cfg: Config, log: Log, c: Ctx, a: seq<Event>, b: seq<Event>,
                                             gens: seq<Generated>)
    requires |gens| == |a| + |b|
    ensures RewriteFeed(cfg, log, c, a + b, gens) ==
      var r := RewriteFeed(cfg, log, c, a, gens[..|a|]);
      if r.Err? then Err else RewriteFeed(cfg, r.value.0, r.value.1, b, gens[|a|..])
    decreases |a|
  {
    hide RewriteEvent;
    if a == [] {
      assert a + b == b && gens[0..] == gens;
    } else {
      assert (a + b)[1..] == a[1..] + b;
      var r := RewriteEvent(cfg, log, c, a[0], gens[0]);
      if r.Ok? {
        RewriteFeedConcat(cfg, r.value.0, r.value.1, a[1..], b, gens[1..]);
        assert gens[..|a|][1..] == gens[1..][..|a| - 1] && gens[1..][|a| - 1..] == gens[|a|..];
      }
    }
  }

  lemma {:induction false} FeedNotesConcat(cfg: Config, j: Journal, log: Log, c: Ctx, a: seq<Event>, b: seq<Event>,
                                           gens: seq<Generated>)
    requires |gens| == |a| + |b| && RewriteFeed(cfg, log, c, a, gens[..|a|]).Ok?
    ensures FeedNotes(cfg, j, log, c, a + b, gens) ==
      var r := RewriteFeed(cfg, log, c, a, gens[..|a|]).value;
      FeedNotes(cfg, FeedNotes(cfg, j, log, c, a, gens[..|a|]), r.0, r.1, b, gens[|a|..])
    decreases |a|
  {
    hide RewriteEvent, Handled;
    if a == [] {
      assert a + b == b && gens[0..] == gens;
    } else {
      assert (a + b)[1..] == a[1..] + b && (a + b)[0] == a[0];
      var r := RewriteEvent(cfg, log, c, a[0], gens[0]).value;
      assert gens[..|a|][1..] == gens[1..][..|a| - 1] && gens[1..][|a| - 1..] == gens[|a|..];
      FeedNotesConcat(cfg, Handled(cfg, j, log, c, a[0], gens[0], Storing), r.0, r.1, a[1..], b, gens[1..]);
    }
  }

  lemma {:induction false} AllowedParts(cfg: Config, log: Log, c: Ctx, a: seq<Event>, b: seq<Event>,
                                        gens: seq<Generated>)
    requires |gens| == |a| + |b| && Allowed(cfg, log, c, a + b, gens)
    ensures Allowed(cfg, log, c, a, gens[..|a|])
    ensures var r := RewriteFeed(cfg, log, c, a, gens[..|a|]);
      r.Ok? ==> Allowed(cfg, r.value.0, r.value.1, b, gens[|a|..])
    decreases |a|
  {
    hide RewriteEvent, AllFits;
    if a == [] {
      assert a + b == b && gens[0..] == gens;
    } else {
      assert (a + b)[1..] == a[1..] + b && (a + b)[0] == a[0];
      var r := RewriteEvent(cfg, log, c, a[0], gens[0]);
      if r.Ok? {
        AllowedParts(cfg, r.value.0, r.value.1, a[1..], b, gens[1..]);
        assert gens[..|a|][1..] == gens[1..][..|a| - 1] && gens[1..][|a| - 1..] == gens[|a|..];
      }
    }
  }

  // ----- a connection ------------------------------------------------------------------

  lemma {:induction false} IdsAreGtids(evs: seq<Ev>)
    ensures forall g :: g in SM.Gtids(evs) <==> g in Ids(evs)
  {
    if evs != [] {
      var n := |evs| - 1;
      IdsAreGtids(evs[..n]);
      assert evs == evs[..n] + [evs[n]];
      SM.GtidsConcat(evs[..n], [evs[n]]);
      SM.GtidsOne(evs[n]);
    }
  }

  lemma {:induction false} OrderGtids(base: set<Gtid>, files: seq<FileLog>)
    ensures SM.AllGtids(base, files) == base + set g | g in Order(files)
  {
    hide SM.Gtids, Ids;
    if files != [] {
      var n := |files| - 1;
      OrderGtids(base, files[..n]);
      IdsAreGtids(files[n].evs);
    }
  }

  lemma {:induction false} PhaseHasGtid(f: SrcFile, k: nat)
    requires GoodFile(GtidBased, f) && k <= |f.events|
    ensures var p := PhaseOf(GtidBased, f.events[..k]); p.InTxn? ==> p.gtid.Some?
  {
    hide GoodFile, PhaseOf;
    if k > 0 {
      PhaseHasGtid(f, k - 1);
      GoodEvents(GtidBased, f, k - 1);
    } else {
      AtFirst(f);
    }
  }

  lemma PairedAtStart(cfg: Config, log: Log, outs: seq<Output>, plain: Log, plain1: Log, src: seq<SrcFile>,
                      at: seq<nat>, j: nat)
    requires Paused(cfg, log, outs) && GoodSource(GtidBased, src) && AtRest(GtidBased, plain, src, at) && j < |src|
    requires |at| == |plain.files| && FirstNew(plain, at, j) <= |src[j].events|
    requires Order(log.files) == Order(plain1.files)
    ensures Paired(cfg, log, FreshContext(log, GtidBased), outs, plain1,
                   PhaseOf(GtidBased, src[j].events[..FirstNew(plain, at, j)]))
  {
    hide GoodFile, PhaseOf, Paused, FreshContext, Order, Copy;
    var k := FirstNew(plain, at, j);
    PhaseHasGtid(src[j], k);
    if k == 0 {
      AtFirst(src[j]);
    } else {
      LastHoldsPrefix(GtidBased, plain, src, at);
      StoredPosition(GtidBased, plain, src[j]);
      StoredPhase(GtidBased, src[j], k);
    }
  }

  lemma LeadInSkipped(plain: Log, src: seq<SrcFile>, at: seq<nat>, j: nat)
    requires GoodSource(GtidBased, src) && |at| == |plain.files| && j < |src| && |src[j].events| >= 2
    ensures var pre := LeadIn(GtidBased, plain, at, src, j); forall i :: 0 <= i < |pre| ==> IsSkipped(pre[i])
  {
    hide GoodFile;
    FirstPhases(GtidBased, src[j]);
  }

  /** The request and so the answer are those of the plain store. */
  lemma SameAnswer(cfg: Config, log: Log, plain: Log, src: seq<SrcFile>, at: seq<nat>) returns (j: nat)
    requires Order(log.files) == Order(plain.files) && Sound(GtidBased, cfg.base, src)
    requires AtRest(GtidBased, plain, src, at)
    ensures var stream := ServeGtids(src, cfg.base, SM.AllGtids(cfg.base, log.files));
      && stream == Serve(GtidBased, cfg.base, src, plain) && stream.Some?
      && Resumes(GtidBased, plain, src, at, j, stream.value)
  {
    hide AtRest, Resumes, ServeGtids, GoodSource, FreshGtids, Active, Order;
    OrderGtids(cfg.base, log.files);
    OrderGtids(cfg.base, plain.files);
    j := AnswerResumes(GtidBased, cfg.base, plain, src, at);
  }

  lemma SameOrderNew(plain: Log, plain1: Log, name: Name)
    requires plain1.files == plain.files || plain1.files == plain.files + [SM.FileLog(name, [])]
    ensures Order(plain1.files) == Order(plain.files)
  {
    OrderSnoc(plain.files, SM.FileLog(name, []));
  }

  /** Both stores after some of the answer, the lead-in included. */
  lemma BothAfter(cfg: Config, log: Log, outs: seq<Output>, plain: Log, src: seq<SrcFile>, at: seq<nat>, j: nat,
                  stream: seq<Event>, n: nat, gens: seq<Generated>)
    returns (outs': seq<Output>, at': seq<nat>, j': nat, k': nat)
    requires Paused(cfg, log, outs) && Order(log.files) == Order(plain.files)
    requires GoodSource(GtidBased, src) && AtRest(GtidBased, plain, src, at)
    requires Resumes(GtidBased, plain, src, at, j, stream)
    requires n <= |stream| && |gens| == n && Allowed(cfg, log, FreshContext(log, GtidBased), stream[..n], gens)
    requires |LeadIn(GtidBased, plain, at, src, j)| <= n
    ensures RewriteFeed(cfg, log, FreshContext(log, GtidBased), stream[..n], gens).Ok?
    ensures Feed(plain, FreshContext(plain, GtidBased), stream[..n]).Ok?
    ensures var (log', c') := RewriteFeed(cfg, log, FreshContext(log, GtidBased), stream[..n], gens).value;
      var (plain', d') := Feed(plain, FreshContext(plain, GtidBased), stream[..n]).value;
      && d'.mode == GtidBased && Settled(plain', d', src, at', j', k', stream[n..])
      && Tracks(outs, c', outs') && Paired(cfg, log', c', outs', plain', PhaseOf(GtidBased, src[j'].events[..k']))
    ensures Events(outs') == FeedNotes(cfg, Events(outs), log, FreshContext(log, GtidBased), stream[..n], gens)
  {
    hide Events, FeedNotes, Paused, AtRest, GoodSource, Feed, RewriteFeed, Allowed, FreshContext, LeadIn, FirstNew,
      Resumes, Standing, Remaining, Order, Grows, PhaseOf, Going, Tracks;
    var c, d := FreshContext(log, GtidBased), FreshContext(plain, GtidBased);
    ResumesBasics(GtidBased, plain, src, at, j, stream);
    var pre, k := LeadIn(GtidBased, plain, at, src, j), FirstNew(plain, at, j);
    LeadInSkipped(plain, src, at, j);
    var m := n - |pre|;
    var rest := Remaining(src, j, k);
    assert stream[..n] == pre + rest[..m] && stream[n..] == rest[m..];
    AllowedParts(cfg, log, c, pre, rest[..m], gens);
    SkipAll(cfg, Events(outs), log, c, pre, gens[..|pre|]);
    RewriteFeedConcat(cfg, log, c, pre, rest[..m], gens);
    FeedNotesConcat(cfg, Events(outs), log, c, pre, rest[..m], gens);
    FeedConcat(plain, d, pre, rest[..m]);
    var at1 := LeadInStands(GtidBased, plain, src, at, j, stream);
    var (plain1, d1) := Feed(plain, d, pre).value;
    SameOrderNew(plain, plain1, src[j].name);
    PairedAtStart(cfg, log, outs, plain, plain1, src, at, j);
    TracksAtStart(outs, log);
    outs', at', j', k' := BothFeed(cfg, outs, log, c, outs, plain1, d1, src, at1, j, k, rest, m, gens[|pre|..]);
  }

  lemma TracksAtStart(outs: seq<Output>, log: Log)
    ensures Tracks(outs, FreshContext(log, GtidBased), outs)
  {
    hide Since;
  }

  lemma TracksSince(start: seq<Output>, c: Ctx, outs: seq<Output>)
    requires Tracks(start, c, outs)
    ensures Since(start, outs)
  {
    hide Since;
    MarksBasics(start);
  }

  /** Before the first transaction of the answer nothing has changed. */
  lemma BothInLead(cfg: Config, notes: Journal, log: Log, plain: Log, src: seq<SrcFile>, at: seq<nat>, j: nat,
                   stream: seq<Event>, n: nat, gens: seq<Generated>)
    requires GoodSource(GtidBased, src) && AtRest(GtidBased, plain, src, at)
    requires Resumes(GtidBased, plain, src, at, j, stream)
    requires n <= |stream| && |gens| == n && Allowed(cfg, log, FreshContext(log, GtidBased), stream[..n], gens)
    requires n < |LeadIn(GtidBased, plain, at, src, j)|
    ensures var c := FreshContext(log, GtidBased);
      && RewriteFeed(cfg, log, c, stream[..n], gens) == Ok((log, c))
      && FeedNotes(cfg, notes, log, c, stream[..n], gens) == notes
    ensures Feed(plain, FreshContext(plain, GtidBased), stream[..n]).Ok?
    ensures Feed(plain, FreshContext(plain, GtidBased), stream[..n]).value.0.files == plain.files
    ensures n < |stream| ==> IsSkipped(stream[n])
  {
    hide FeedNotes, AtRest, GoodSource, Feed, RewriteFeed, Allowed, FreshContext, LeadIn, FirstNew, Resumes, Standing,
      Remaining, CutOff;
    ResumesBasics(GtidBased, plain, src, at, j, stream);
    var pre := LeadIn(GtidBased, plain, at, src, j);
    LeadInSkipped(plain, src, at, j);
    assert stream[..n] == pre[..n] && stream[n] == pre[n];
    LeadInCut(GtidBased, plain, src, at, j, stream, n);
    SkipAll(cfg, notes, log, FreshContext(log, GtidBased), pre[..n], gens);
  }

  lemma GoingStorable(cfg: Config, log: Log, c: Ctx, outs: seq<Output>, left: nat, id: Option<Gtid>)
    requires Going(cfg, log, c, outs, left, id)
    ensures Storable(cfg, log.files, outs)
  {
    hide Paused, Connected, Storable, PhaseOf;
    GoingBasics(cfg, log, c, outs, left, id);
    if c.IsFresh() { PausedStorable(cfg, log, outs); } else { ConnectedStorable(cfg, log, c, outs); }
  }

  /**
   * Rewriting keeps the transactions: on the same answer, cut off at the same place, the rewriting store
   * accepts everything and ends up with the same transactions in the same order as the plain store,
   * in files of its own that keep every property of Shaped, with at most one new mark.
   */
  lemma RewriteConnection(cfg: Config, log: Log, outs: seq<Output>, plain: Log, src: seq<SrcFile>, at: seq<nat>, j: nat,
                          stream: seq<Event>, n: nat, gens: seq<Generated>)
    returns (outs': seq<Output>, paused: seq<Output>)
    requires Paused(cfg, log, outs) && Order(log.files) == Order(plain.files)
    requires GoodSource(GtidBased, src) && AtRest(GtidBased, plain, src, at)
    requires Resumes(GtidBased, plain, src, at, j, stream)
    requires n <= |stream| && |gens| == n && Allowed(cfg, log, FreshContext(log, GtidBased), stream[..n], gens)
    ensures RewriteFeed(cfg, log, FreshContext(log, GtidBased), stream[..n], gens).Ok?
    ensures Feed(plain, FreshContext(plain, GtidBased), stream[..n]).Ok?
    ensures var log' := RewriteFeed(cfg, log, FreshContext(log, GtidBased), stream[..n], gens).value.0;
      var plain' := Feed(plain, FreshContext(plain, GtidBased), stream[..n]).value.0;
      && Storable(cfg, log'.files, outs') && Since(outs, outs')
      && Paused(cfg, AfterTimeout(log'), paused) && Since(outs, paused) && AfterTimeout(log').files == log'.files
      && Order(log'.files) == Order(plain'.files)
      && Events(outs') == FeedNotes(cfg, Events(outs), log, FreshContext(log, GtidBased), stream[..n], gens)
      && Events(paused) == Kept(Events(outs'), log'.files)
  {
    hide Events, Kept, FeedNotes, Paused, AtRest, GoodSource, Feed, RewriteFeed, Allowed, FreshContext, LeadIn, Resumes,
      Settled, Order, PhaseOf, Going, Tracks, Since, SameMarks, Storable, AfterTimeout;
    ResumesBasics(GtidBased, plain, src, at, j, stream);
    if n < |LeadIn(GtidBased, plain, at, src, j)| {
      BothInLead(cfg, Events(outs), log, plain, src, at, j, stream, n, gens);
      outs' := outs;
      MarksBasics(outs);
      PausedStorable(cfg, log, outs);
      paused := outs;
      PausePaused(cfg, log, outs);
      PausedKept(cfg, log, outs);
      TimeoutFiles(log);
    } else {
      var at', j', k';
      outs', at', j', k' := BothAfter(cfg, log, outs, plain, src, at, j, stream, n, gens);
      var (log', c') := RewriteFeed(cfg, log, FreshContext(log, GtidBased), stream[..n], gens).value;
      var (plain', d') := Feed(plain, FreshContext(plain, GtidBased), stream[..n]).value;
      TracksSince(outs, c', outs');
      SettledPlace(plain', d', src, at', j', k', stream[n..]);
      var p := PhaseOf(GtidBased, src[j'].events[..k']);
      GoingStorable(cfg, log', c', outs', Left(p), IdOf(p));
      paused := PauseAfter(cfg, log', c', outs', Left(p), IdOf(p));
      MarksStay(outs, outs', paused);
    }
  }

  lemma TimeoutFiles(log: Log)
    ensures AfterTimeout(log).files == log.files
  {
  }

  lemma SettledPlace(log: Log, c: Ctx, src: seq<SrcFile>, at: seq<nat>, j: nat, k: nat, rest: seq<Event>)
    requires Settled(log, c, src, at, j, k, rest)
    ensures j < |src| && k <= |src[j].events|
  {
  }

  /** What a crash in a part of the handling of an event may leave. */
  ghost predicate PartLeaves(cfg: Config, log: Log, c: Ctx, e: Event, g: Generated, part: Part, files: seq<FileLog>) {
    && PartOf(cfg, log, c, e, g, part).Some?
    && var (log1, c1, e1) := PartOf(cfg, log, c, e, g, part).value;
       || Trimmed(log1, files)
       || (ProcessEvent(log1, c1, e1).Ok? && Trimmed(ProcessEvent(log1, c1, e1).value.0, files))
  }

  /** A crash in any part of the next event. */
  lemma CrashNext(cfg: Config, start: seq<Output>, log: Log, c: Ctx, outs: seq<Output>, plain: Log, d: Ctx,
                  src: seq<SrcFile>, at: seq<nat>, j: nat, k: nat, rest: seq<Event>, g: Generated, part: Part,
                  files: seq<FileLog>)
    returns (outs': seq<Output>)
    requires d.mode == GtidBased && Settled(plain, d, src, at, j, k, rest) && GoodSource(GtidBased, src) && rest != []
    requires Tracks(start, c, outs) && Paired(cfg, log, c, outs, plain, PhaseOf(GtidBased, src[j].events[..k]))
    requires rest[0].code.FormatDescription? ==> g.checksums
    requires !IsSkipped(rest[0]) ==> AllFits(cfg, log, c, rest[0], g)
    requires PartLeaves(cfg, log, c, rest[0], g, part, files)
    ensures ProcessEvent(plain, d, rest[0]).Ok?
    ensures Paused(cfg, SR.Log(files, [], false), outs') && Since(start, outs')
    ensures Order(files) <= Order(ProcessEvent(plain, d, rest[0]).value.0.files)
    ensures Events(outs') == Kept(Handled(cfg, Events(outs), log, c, rest[0], g, part), files)
  {
    hide Events, Kept, Handled, HandledEvents, Within, ProcessEvent, GoodFile, Going, NextPhase, PhaseOf, AllFits,
      Order, Standing, Remaining, Tracks, Since, MarksAfter, Moment, Storable, Trimmed, Paused, RewriteEvent, SameMarks;
    var outs1, at1, j1, k1 := BothOnce(cfg, start, log, c, outs, plain, d, src, at, j, k, rest, g);
    PartNotSkipped(cfg, log, c, rest[0], g, part);
    SettledPlace(plain, d, src, at, j, k, rest);
    RemainingHead(src, j, k);
    var p := PhaseOf(GtidBased, src[j].events[..k]);
    GoodEvents(GtidBased, src[j], k);
    SourceStep(p, rest[0]);
    var a, b := PartMoments(cfg, log, c, outs, rest[0], g, Left(p), IdOf(p), part);
    HandledIs(cfg, log, c, outs, rest[0], g, Left(p), IdOf(p), part);
    var notes := Handled(cfg, Events(outs), log, c, rest[0], g, part);
    var (log1, c1, e1) := PartOf(cfg, log, c, rest[0], g, part).value;
    if Trimmed(log1, files) {
      outs' := CutMoment(cfg, start, log, c, outs, log1, a, files, notes);
    } else {
      var log2 := ProcessEvent(log1, c1, e1).value.0;
      if part.Storing? {
        outs' := PauseTrimmed(cfg, log2, b, files);
        KeptWithin(b, notes, files);
        TrimmedOrder(log2, files);
        TracksMarks(start, c, outs, b);
        MarksStay(start, b, outs');
      } else {
        outs' := CutMoment(cfg, start, log, c, outs, log2, b, files, notes);
      }
    }
  }

  lemma PartNotSkipped(cfg: Config, log: Log, c: Ctx, e: Event, g: Generated, part: Part)
    requires PartOf(cfg, log, c, e, g, part).Some?
    ensures !IsSkipped(e)
  {
  }

  lemma TracksMarks(start: seq<Output>, c: Ctx, outs: seq<Output>, b: seq<Output>)
    requires Tracks(start, c, outs) && MarksAfter(c, outs, b)
    ensures Since(start, b)
  {
    hide Since, SameMarks;
    if !c.IsFresh() { MarksStay(start, outs, b); }
  }

  lemma CutMoment(cfg: Config, start: seq<Output>, was: Log, c: Ctx, outs: seq<Output>, log: Log, a: seq<Output>,
                  files: seq<FileLog>, notes: Journal)
    returns (outs': seq<Output>)
    requires Moment(cfg, was, c, outs, log, a) && Tracks(start, c, outs) && Trimmed(log, files) && Within(a, notes)
    ensures Paused(cfg, SR.Log(files, [], false), outs') && Since(start, outs')
    ensures Order(files) <= Order(was.files) && Events(outs') == Kept(notes, files)
  {
    hide Events, Kept, Within, Storable, Tracks, Since, SameMarks, MarksAfter, Trimmed, Paused, Order;
    outs' := PauseTrimmed(cfg, log, a, files);
    KeptWithin(a, notes, files);
    TrimmedOrder(log, files);
    TracksMarks(start, c, outs, a);
    MarksStay(start, a, outs');
  }

  /**
   * A crash anywhere in a connection, in any part of any event, leaves well-shaped files with first
   * transactions of the plain store.
   */
  lemma RewriteCrash(cfg: Config, log: Log, outs: seq<Output>, plain: Log, src: seq<SrcFile>, at: seq<nat>, j: nat,
                     stream: seq<Event>, n: nat, gens: seq<Generated>, g: Generated, part: Part, files: seq<FileLog>)
    returns (outs': seq<Output>)
    requires Paused(cfg, log, outs) && Order(log.files) == Order(plain.files)
    requires GoodSource(GtidBased, src) && AtRest(GtidBased, plain, src, at)
    requires Resumes(GtidBased, plain, src, at, j, stream)
    requires n < |stream| && |gens| == n && Allowed(cfg, log, FreshContext(log, GtidBased), stream[..n + 1], gens + [g])
    requires RewriteFeed(cfg, log, FreshContext(log, GtidBased), stream[..n], gens).Ok?
    requires var (log1, c1) := RewriteFeed(cfg, log, FreshContext(log, GtidBased), stream[..n], gens).value;
      PartLeaves(cfg, log1, c1, stream[n], g, part, files)
    ensures Paused(cfg, SR.Log(files, [], false), outs') && Since(outs, outs')
    ensures Feed(plain, FreshContext(plain, GtidBased), stream[..n + 1]).Ok?
    ensures Order(files) <= Order(Feed(plain, FreshContext(plain, GtidBased), stream[..n + 1]).value.0.files)
    ensures var (log1, c1) := RewriteFeed(cfg, log, FreshContext(log, GtidBased), stream[..n], gens).value;
      var notes := FeedNotes(cfg, Events(outs), log, FreshContext(log, GtidBased), stream[..n], gens);
      Events(outs') == Kept(Handled(cfg, notes, log1, c1, stream[n], g, part), files)
  {
    hide Events, Kept, Handled, FeedNotes, Paused, AtRest, GoodSource, Feed, RewriteFeed, Allowed, FreshContext, LeadIn,
      Resumes, Settled, Order, PhaseOf, Tracks, Since, Going, AllFits, PartOf, ProcessEvent, Trimmed;
    var c := FreshContext(log, GtidBased);
    assert stream[..n + 1] == stream[..n] + [stream[n]];
    assert (gens + [g])[..n] == gens && (gens + [g])[n..] == [g];
    AllowedParts(cfg, log, c, stream[..n], [stream[n]], gens + [g]);
    ResumesBasics(GtidBased, plain, src, at, j, stream);
    var (log1, c1) := RewriteFeed(cfg, log, c, stream[..n], gens).value;
    PartNotSkipped(cfg, log1, c1, stream[n], g, part);
    if n < |LeadIn(GtidBased, plain, at, src, j)| {
      BothInLead(cfg, Events(outs), log, plain, src, at, j, stream, n, gens);
      assert false;
    } else {
      var outs1, at1, j1, k1 := BothAfter(cfg, log, outs, plain, src, at, j, stream, n, gens);
      var (plain1, d1) := Feed(plain, FreshContext(plain, GtidBased), stream[..n]).value;
      AllowedHead(cfg, log1, c1, stream[n], g);
      SettledPlace(plain1, d1, src, at1, j1, k1, stream[n..]);
      outs' := CrashNext(cfg, outs, log1, c1, outs1, plain1, d1, src, at1, j1, k1, stream[n..], g, part, files);
      FeedConcat(plain, FreshContext(plain, GtidBased), stream[..n], [stream[n]]);
      FeedOne(plain1, d1, stream[n]);
    }
  }

  lemma AllowedHead(cfg: Config, log: Log, c: Ctx, e: Event, g: Generated)
    requires Allowed(cfg, log, c, [e], [g])
    ensures (e.code.FormatDescription? ==> g.checksums) && (!IsSkipped(e) ==> AllFits(cfg, log, c, e, g))
  {
    hide AllFits, RewriteEvent;
  }

  // ----- every history -----------------------------------------------------------------

  lemma {:induction false} IdsOfCommits(evs: seq<Ev>)
    ensures Ids(Commits(GtidBased, evs)) == Ids(evs)
  {
    if evs != [] {
      var n := |evs| - 1;
      IdsOfCommits(evs[..n]);
      IdsConcat(Commits(GtidBased, evs[..n]), [evs[n]]);
      assert Commits(GtidBased, evs[..n]) + [] == Commits(GtidBased, evs[..n]);
    }
  }

  lemma {:induction false} OrderOfCommits(files: seq<FileLog>)
    ensures Order(files) == Ids(StoredCommits(GtidBased, files))
  {
    hide Commits, Ids;
    if files != [] {
      var n := |files| - 1;
      OrderOfCommits(files[..n]);
      IdsOfCommits(files[n].evs);
      IdsConcat(StoredCommits(GtidBased, files[..n]), Commits(GtidBased, files[n].evs));
    } else {
      assert Ids([]) == [] by { NoIds([]); }
    }
  }

  /** The GTIDs of the source's transactions, in order. */
  ghost function SourceOrder(src: seq<SrcFile>): seq<Gtid> {
    Ids(SourceCommits(GtidBased, src, |src|))
  }

  // ----- a plain store with fewer transactions -----------------------------------------

  /** Without the events of an unfinished transaction. */
  ghost function CompletePart(evs: seq<Ev>): (r: seq<Ev>)
    ensures r <= evs && SM.Complete(r)
  {
    if evs == [] then [] else if evs[|evs| - 1].boundary then evs else CompletePart(evs[..|evs| - 1])
  }

  lemma {:induction false} CompletePartIds(evs: seq<Ev>)
    ensures Ids(CompletePart(evs)) == Ids(evs)
  {
    if evs != [] && !evs[|evs| - 1].boundary {
      CompletePartIds(evs[..|evs| - 1]);
    }
  }

  /** One transaction fewer, or the same transactions in a shorter log. */
  lemma StepBack(files: seq<FileLog>, src: seq<SrcFile>, at: seq<nat>) returns (files': seq<FileLog>, at': seq<nat>)
    requires Aligned(GtidBased, files, src, at) && files != []
    ensures Aligned(GtidBased, files', src, at')
    ensures Size(files') < Size(files)
    ensures Order(files') <= Order(files) && |Order(files)| <= |Order(files')| + 1
  {
    hide HoldsPrefix, TakenUpTo;
    var n := |files| - 1;
    var evs := files[n].evs;
    if evs == [] {
      files', at' := files[..n], at[..n];
      assert Ids([]) == [];
    } else {
      var m := |evs| - 1;
      var less := CompletePart(evs[..m]);
      files', at' := files[..n] + [SM.FileLog(files[n].name, less)], at;
      assert files'[..n] == files[..n];
      CompletePartIds(evs[..m]);
      ShorterPrefix(files[n], less, src[at[n]]);
      ReplaceLast(GtidBased, files, files', src, at);
    }
  }

  lemma ShorterPrefix(f: FileLog, less: seq<Ev>, g: SrcFile)
    requires HoldsPrefix(GtidBased, f, g) && less <= f.evs && SM.Complete(less)
    ensures HoldsPrefix(GtidBased, SM.FileLog(f.name, less), g)
  {
  }

  ghost function Size(files: seq<FileLog>): nat {
    if files == [] then 0 else Size(files[..|files| - 1]) + 1 + |files[|files| - 1].evs|
  }

  /** Any first transactions of an aligned store are the transactions of an aligned store. */
  lemma {:induction false} CutToOrder(files: seq<FileLog>, src: seq<SrcFile>, at: seq<nat>, order: seq<Gtid>)
    returns (files': seq<FileLog>, at': seq<nat>)
    requires Aligned(GtidBased, files, src, at) && order <= Order(files)
    ensures Aligned(GtidBased, files', src, at') && Order(files') == order
    decreases Size(files)
  {
    hide Aligned, Order, Size;
    if Order(files) == order {
      files', at' := files, at;
    } else {
      NotEmpty(files);
      var files1, at1 := StepBack(files, src, at);
      files', at' := CutToOrder(files1, src, at1, order);
    }
  }

  lemma NotEmpty(files: seq<FileLog>)
    ensures Order(files) != [] ==> files != []
  {
  }

  // ----- histories ---------------------------------------------------------------------

  /**
   * How a connection ends: a timeout, a crash in its last calls, or a crash in a part of the handling of the
   * next event.
   */
  datatype RewriteEnd =
    | TimedOut
    | Crashed(files: seq<FileLog>)
    | CrashedIn(g: Generated, part: Part, files: seq<FileLog>)

  datatype RewriteTurn = RewriteTurn(src: seq<SrcFile>, received: nat, gens: seq<Generated>, end: RewriteEnd)

  ghost function Offered(cfg: Config, log: Log, src: seq<SrcFile>): Option<seq<Event>> {
    ServeGtids(src, cfg.base, SM.AllGtids(cfg.base, log.files))
  }

  ghost predicate Ends(cfg: Config, log: Log, t: RewriteTurn, stream: seq<Event>, mid: (Log, Ctx), log': Log)
    requires |t.gens| == t.received <= |stream|
  {
    match t.end
    case TimedOut => log' == AfterTimeout(mid.0)
    case Crashed(files) => Trimmed(mid.0, files) && log' == SR.Log(files, [], false)
    case CrashedIn(g, part, files) =>
      && t.received < |stream|
      && Allowed(cfg, log, FreshContext(log, GtidBased), stream[..t.received + 1], t.gens + [g])
      && PartLeaves(cfg, mid.0, mid.1, stream[t.received], g, part, files) && log' == SR.Log(files, [], false)
  }

  ghost predicate RewriteLeads(cfg: Config, log: Log, t: RewriteTurn, log': Log) {
    && Offered(cfg, log, t.src).Some? && |t.gens| == t.received <= |Offered(cfg, log, t.src).value|
    && var stream := Offered(cfg, log, t.src).value;
       var c := FreshContext(log, GtidBased);
       && Allowed(cfg, log, c, stream[..t.received], t.gens)
       && RewriteFeed(cfg, log, c, stream[..t.received], t.gens).Ok?
       && Ends(cfg, log, t, stream, RewriteFeed(cfg, log, c, stream[..t.received], t.gens).value, log')
  }

  ghost predicate RewriteHistory(cfg: Config, turns: seq<RewriteTurn>, logs: seq<Log>) {
    && |logs| == |turns| + 1 && logs[0] == SR.Log([], [], false)
    && (forall i :: 0 <= i < |turns| ==>
          Sound(GtidBased, cfg.base, turns[i].src) && RewriteLeads(cfg, logs[i], turns[i], logs[i + 1]))
    && (forall i :: 0 < i < |turns| ==> Grown(turns[i - 1].src, turns[i].src))
  }

  /** The events handed over to be written in a connection, as far as its end leaves them. */
  ghost function TurnNotes(cfg: Config, j: Journal, log: Log, t: RewriteTurn): Journal {
    var answer := Offered(cfg, log, t.src);
    if answer.None? || !(|t.gens| == t.received <= |answer.value|) then j
    else
      var (stream, c) := (answer.value, FreshContext(log, GtidBased));
      var r := RewriteFeed(cfg, log, c, stream[..t.received], t.gens);
      var j1 := FeedNotes(cfg, j, log, c, stream[..t.received], t.gens);
      if r.Err? then j1
      else
        match t.end
        case TimedOut => Kept(j1, r.value.0.files)
        case Crashed(files) => Kept(j1, files)
        case CrashedIn(g, part, files) =>
          if t.received == |stream| then j1
          else Kept(Handled(cfg, j1, r.value.0, r.value.1, stream[t.received], g, part), files)
  }

  /** The events handed over in a whole history, file by file, as far as the files hold them. */
  ghost function Notes(cfg: Config, turns: seq<RewriteTurn>, logs: seq<Log>): Journal
    requires |logs| == |turns| + 1
    decreases |turns|
  {
    if turns == [] then []
    else
      var n := |turns| - 1;
      TurnNotes(cfg, Notes(cfg, turns[..n], logs[..n + 1]), logs[n], turns[n])
  }

  /** A plain store with the same transactions. */
  ghost predicate Shadowed(cfg: Config, log: Log, outs: seq<Output>, plain: Log, src: seq<SrcFile>, at: seq<nat>) {
    Paused(cfg, log, outs) && AtRest(GtidBased, plain, src, at) && Order(log.files) == Order(plain.files)
  }

  lemma CutShadow(cfg: Config, files: seq<FileLog>, outs: seq<Output>, mid: Log, src: seq<SrcFile>, at: seq<nat>)
    returns (plain: Log, at': seq<nat>)
    requires Paused(cfg, SR.Log(files, [], false), outs) && CutOff(GtidBased, mid, src, at)
    requires Order(files) <= Order(mid.files)
    ensures Shadowed(cfg, SR.Log(files, [], false), outs, plain, src, at')
  {
    hide Paused, Order, Aligned;
    var files';
    files', at' := CutToOrder(mid.files, src, at, Order(files));
    plain := SR.Log(files', [], false);
  }

  /** After any history the answer resumes properly and is accepted however far it gets, whatever part a crash hits. */
  lemma RewriteTurnKeeps(cfg: Config, log: Log, outs: seq<Output>, plain: Log, at: seq<nat>, t: RewriteTurn, log': Log)
    returns (outs': seq<Output>, plain': Log, at': seq<nat>)
    requires Shadowed(cfg, log, outs, plain, t.src, at) && Sound(GtidBased, cfg.base, t.src)
    requires RewriteLeads(cfg, log, t, log')
    ensures Shadowed(cfg, log', outs', plain', t.src, at') && Since(outs, outs')
    ensures Events(outs') == TurnNotes(cfg, Events(outs), log, t)
    ensures t.end.TimedOut? && t.received == |Offered(cfg, log, t.src).value| ==>
      HasAll(GtidBased, plain'.files, t.src, at')
  {
    hide Paused, AtRest, GoodSource, FreshGtids, Active, Feed, RewriteFeed, Allowed, FreshContext, Resumes, CutOff,
      Order, Grows, HasAll, ServeGtids, Serve, Storable, Since, SameMarks, PartLeaves, Trimmed, AfterTimeout,
      Events, Kept, Handled, FeedNotes;
    var j := SameAnswer(cfg, log, plain, t.src, at);
    var stream, n := Offered(cfg, log, t.src).value, t.received;
    var outs1, paused := RewriteConnection(cfg, log, outs, plain, t.src, at, j, stream, n, t.gens);
    var at1 := ConnectionAccepted(GtidBased, plain, t.src, at, j, stream, n);
    var mid := Feed(plain, FreshContext(plain, GtidBased), stream[..n]).value.0;
    match t.end
    case TimedOut =>
      RestAfterCut(GtidBased, mid, t.src, at1);
      TimeoutIs(mid);
      outs', plain', at' := paused, AfterTimeout(mid), at1;
      TimeoutFiles(mid);
    case Crashed(files) =>
      var log1 := RewriteFeed(cfg, log, FreshContext(log, GtidBased), stream[..n], t.gens).value.0;
      outs' := PauseTrimmed(cfg, log1, outs1, files);
      TrimmedOrder(log1, files);
      MarksStay(outs, outs1, outs');
      plain', at' := CutShadow(cfg, files, outs', mid, t.src, at1);
    case CrashedIn(g, part, files) =>
      outs' := RewriteCrash(cfg, log, outs, plain, t.src, at, j, stream, n, t.gens, g, part, files);
      var at2 := ConnectionAccepted(GtidBased, plain, t.src, at, j, stream, n + 1);
      var mid2 := Feed(plain, FreshContext(plain, GtidBased), stream[..n + 1]).value.0;
      plain', at' := CutShadow(cfg, files, outs', mid2, t.src, at2);
  }

  lemma TimeoutIs(log: Log)
    ensures AfterTimeout(log) == SR.LogApply(SR.LogApply(log, SR.Discard), SR.FlushNow)
  {
  }

  // ----- reconnects --------------------------------------------------------------------

  /** Some connection started when file i was the last one and had k events. */
  ghost predicate Reconnected(logs: seq<Log>, i: nat, k: nat) {
    exists t :: 0 <= t < |logs| && |logs[t].files| == i + 1 && |logs[t].files[i].evs| == k
  }

  /** Every mark stands for a connection that started there. */
  ghost predicate Tied(logs: seq<Log>, outs: seq<Output>) {
    forall i, k :: 0 <= i < |outs| && k in outs[i].resumed ==> Reconnected(logs, i, k)
  }

  lemma ReconnectedMore(logs: seq<Log>, log: Log, i: nat, k: nat)
    ensures Reconnected(logs, i, k) ==> Reconnected(logs + [log], i, k)
    ensures |log.files| == i + 1 && |log.files[i].evs| == k ==> Reconnected(logs + [log], i, k)
  {
    var all := logs + [log];
    assert all[|logs|] == log;
    if Reconnected(logs, i, k) {
      var t :| 0 <= t < |logs| && |logs[t].files| == i + 1 && |logs[t].files[i].evs| == k;
      assert all[t] == logs[t];
    }
  }

  lemma TiedMore(cfg: Config, logs: seq<Log>, log: Log, outs: seq<Output>, outs': seq<Output>)
    requires Tied(logs, outs) && Paused(cfg, log, outs) && Since(outs, outs')
    ensures Tied(logs + [log], outs')
  {
    hide FilesMade, Fits, PhaseOf, Reconnected;
    forall i, k | 0 <= i < |outs'| && k in outs'[i].resumed ensures Reconnected(logs + [log], i, k) {
      assert k in MarksOf(outs, i);
      ReconnectedMore(logs, log, i, k);
    }
  }

  lemma {:induction false} RewriteShadow(cfg: Config, turns: seq<RewriteTurn>, logs: seq<Log>, src: seq<SrcFile>)
    returns (outs: seq<Output>, plain: Log, at: seq<nat>)
    requires RewriteHistory(cfg, turns, logs) && (turns == [] || Grown(turns[|turns| - 1].src, src))
    ensures Shadowed(cfg, logs[|turns|], outs, plain, src, at) && Tied(logs[..|turns|], outs)
    ensures Events(outs) == Notes(cfg, turns, logs)
    decreases |turns|
  {
    hide RewriteLeads, Sound, Grown, Aligned, Paused, Order, Tied, Since, TurnNotes;
    if turns == [] {
      outs, plain, at := [], SR.Log([], [], false), [];
      NothingAligned(GtidBased, src);
      NothingPaused(cfg);
      NothingTied(logs[..0]);
    } else {
      var n := |turns| - 1;
      var t := turns[n];
      var outs0, plain0, at0 := RewriteShadow(cfg, turns[..n], logs[..n + 1], t.src);
      assert logs[..n + 1][..n] == logs[..n];
      outs, plain, at := RewriteTurnKeeps(cfg, logs[n], outs0, plain0, at0, t, logs[n + 1]);
      TiedMore(cfg, logs[..n], logs[n], outs0, outs);
      assert logs[..n] + [logs[n]] == logs[..|turns|];
      GrownAligned(GtidBased, plain.files, t.src, src, at);
    }
  }

  lemma NothingTied(logs: seq<Log>)
    ensures Tied(logs, [])
  {
  }

  lemma NothingPaused(cfg: Config)
    ensures Paused(cfg, SR.Log([], [], false), [])
  {
  }

  /**
   * Exactly once in rewrite mode: after any number of connections, each ended by a timeout or by a crash in any part of
   * the handling of any event, the stored transactions are the first ones of the source, in order and once, and every
   * file is well made of the events that were handed over to be written.
   */
  lemma RewriteExactlyOnce(cfg: Config, turns: seq<RewriteTurn>, logs: seq<Log>, src: seq<SrcFile>)
    requires RewriteHistory(cfg, turns, logs) && (turns == [] || Grown(turns[|turns| - 1].src, src))
    ensures Order(logs[|turns|].files) <= SourceOrder(src)
    ensures var (files, notes) := (logs[|turns|].files, Notes(cfg, turns, logs));
      |notes| == |files| && forall i :: 0 <= i < |files| ==> WellMade(cfg, logs[..|turns|], files, i, notes[i])
  {
    hide RewriteLeads, Sound, Grown, Aligned, Paused, Order, StoredCommits, SourceCommits, Ids, WellMade, Tied,
      Notes;
    var outs, plain, at := RewriteShadow(cfg, turns, logs, src);
    StoredIsAPrefix(GtidBased, plain.files, src, at);
    OrderOfCommits(plain.files);
    IdsBefore(StoredCommits(GtidBased, plain.files), SourceCommits(GtidBased, src, |src|));
    var log := logs[|turns|];
    OneOutEach(cfg, log, outs);
    forall i | 0 <= i < |outs| ensures WellMade(cfg, logs[..|turns|], log.files, i, Notes(cfg, turns, logs)[i]) {
      assert Notes(cfg, turns, logs)[i] == outs[i].f.events;
      RewrittenFile(cfg, logs[..|turns|], log, outs, i);
    }
  }

  lemma OneOutEach(cfg: Config, log: Log, outs: seq<Output>)
    requires Paused(cfg, log, outs)
    ensures |outs| == |log.files|
  {
  }

  /** Once all of an answer has arrived, all transactions of the source are stored. */
  lemma RewriteCatchesUp(cfg: Config, turns: seq<RewriteTurn>, logs: seq<Log>, t: RewriteTurn, log': Log)
    requires RewriteHistory(cfg, turns, logs) && (turns == [] || Grown(turns[|turns| - 1].src, t.src))
    requires Sound(GtidBased, cfg.base, t.src) && RewriteLeads(cfg, logs[|turns|], t, log')
    requires t.end.TimedOut? && t.received == |Offered(cfg, logs[|turns|], t.src).value|
    ensures Order(log'.files) == SourceOrder(t.src)
  {
    hide RewriteLeads, Sound, Grown, Aligned, Paused, Order, StoredCommits, SourceCommits, Ids, Tied, Since,
      Notes, TurnNotes;
    var outs, plain, at := RewriteShadow(cfg, turns, logs, t.src);
    var outs', plain', at' := RewriteTurnKeeps(cfg, logs[|turns|], outs, plain, at, t, log');
    StoredIsAll(GtidBased, plain'.files, t.src, at');
    OrderOfCommits(plain'.files);
  }

  // ----- what the files look like ------------------------------------------------------

  /** Every next position is the offset just after its event. */
  ghost predicate Positioned(events: seq<Event>) {
    forall k :: 0 <= k < |events| ==>
      events[k].size == |events[k].data| && events[k].nextPos == Offset(events[..k + 1])
  }

  /** A transaction that is neither the first of its file nor the first of a connection begins below the limit. */
  ghost predicate WithinLimit(cfg: Config, before: seq<Log>, i: nat, events: seq<Event>) {
    forall k :: 0 <= k < |events| && events[k].IsGtid() ==>
      k == 2 || Offset(events[..k]) < cfg.fileSize || Reconnected(before, i, k)
  }

  /** A terminator is the last event unless a connection started right behind it. */
  ghost predicate TerminatorsLast(before: seq<Log>, i: nat, events: seq<Event>) {
    forall k :: 0 <= k < |events| - 1 && events[k].IsTerminator() ==> Reconnected(before, i, k + 1)
  }

  /** The PREVIOUS_GTIDS event equals the previous set of the file's record. */
  ghost predicate MatchesRecord(cfg: Config, files: seq<FileLog>, i: nat, events: seq<Event>)
    requires i < |files|
  {
    |events| > 1 ==>
      var previous := SM.RecordsOf(GtidBased, cfg.base, files)[i].previous;
      previous.Some? && events[1].data == cfg.encode(previous.value)
  }

  /**
   * File i is made of these events: named after its predecessor, with exact positions, sequence numbers from one and
   * its record's previous set, within the size limit but not ended below it, and with its terminator, a ROTATE to the
   * next file, at the end; the last file ends with a whole transaction or with its terminator.
   */
  ghost predicate WellMade(cfg: Config, before: seq<Log>, files: seq<FileLog>, i: nat, events: seq<Event>) {
    && i < |files| && files[i].evs == Copy(GtidBased, events)
    && files[i].name == (if i == 0 then cfg.first else RawName(files[i - 1].name.base, files[i - 1].name.number + 1))
    && (if i + 1 < |files| then PhaseOf(GtidBased, events).Ended? else Whole(PhaseOf(GtidBased, events)))
    && Positioned(events) && Numbered(events) && MatchesRecord(cfg, files, i, events)
    && WithinLimit(cfg, before, i, events) && TerminatorsLast(before, i, events)
    && PointsOn(SrcFile(files[i].name, events)) && Filled(cfg, events)
  }

  lemma {:induction false} MadeFacts(cfg: Config, files: seq<FileLog>, outs: seq<Output>, i: nat)
    requires FilesMade(cfg, files, outs) && i < |files|
    ensures |outs| == |files| && Fits(cfg, files[..i], files[i].name, outs[i])
    ensures files[i].evs == Copy(GtidBased, outs[i].f.events) && PhaseOf(GtidBased, outs[i].f.events).Ended?
    decreases |files|
  {
    hide Fits;
    var n := |files| - 1;
    if i < n {
      MadeFacts(cfg, files[..n], outs[..n], i);
      assert files[..n][..i] == files[..i];
    }
  }

  lemma PlaceOf(cfg: Config, log: Log, outs: seq<Output>, i: nat)
    requires Paused(cfg, log, outs) && i < |log.files|
    ensures |outs| == |log.files| && Fits(cfg, log.files[..i], log.files[i].name, outs[i])
    ensures log.files[i].evs == Copy(GtidBased, outs[i].f.events)
    ensures var p := PhaseOf(GtidBased, outs[i].f.events); if i + 1 < |log.files| then p.Ended? else Whole(p)
  {
    hide PhaseOf, Copy, FilesMade, Fits;
    var n := |log.files| - 1;
    if i < n {
      MadeFacts(cfg, log.files[..n], outs[..n], i);
      assert log.files[..n][..i] == log.files[..i];
    }
  }

  lemma NameOf(cfg: Config, files: seq<FileLog>, i: nat)
    requires i < |files| && NameAfter(cfg, files[..i]) == Some(files[i].name)
    ensures files[i].name
         == if i == 0 then cfg.first else RawName(files[i - 1].name.base, files[i - 1].name.number + 1)
  {
    assert i > 0 ==> files[..i][i - 1] == files[i - 1];
  }

  lemma SizesOf(events: seq<Event>)
    requires SoFar(events)
    ensures Positioned(events)
  {
    hide SoFar, Offset;
    forall k | 0 <= k < |events|
      ensures events[k].size == |events[k].data| && events[k].nextPos == Offset(events[..k + 1])
    {
      SoFarAt(events, k);
    }
  }

  /** The marks of a file are places where a connection started. */
  lemma MarksTied(cfg: Config, before: seq<Log>, outs: seq<Output>, i: nat)
    requires Tied(before, outs) && i < |outs|
    requires Limited(cfg, outs[i].f.events, outs[i].resumed) && Terminated(outs[i].f.events, outs[i].resumed)
    ensures WithinLimit(cfg, before, i, outs[i].f.events) && TerminatorsLast(before, i, outs[i].f.events)
  {
    hide Reconnected, Offset;
  }

  lemma PreviousOf(cfg: Config, files: seq<FileLog>, i: nat, events: seq<Event>)
    requires i < |files| && Prefaced(cfg, files[..i], events)
    ensures MatchesRecord(cfg, files, i, events)
  {
    SM.RecordAt(GtidBased, cfg.base, files, i);
  }

  lemma RewrittenFile(cfg: Config, before: seq<Log>, log: Log, outs: seq<Output>, i: nat)
    requires Paused(cfg, log, outs) && Tied(before, outs) && i < |log.files|
    ensures |outs| == |log.files| && WellMade(cfg, before, log.files, i, outs[i].f.events)
  {
    hide Paused, PhaseOf, Copy, SoFar, Tied, Limited, Terminated, Prefaced, PointsOn, Filled, NameAfter, Positioned,
      Numbered, MatchesRecord, WithinLimit, TerminatorsLast;
    PlaceOf(cfg, log, outs, i);
    NameOf(cfg, log.files, i);
    SizesOf(outs[i].f.events);
    MarksTied(cfg, before, outs, i);
    PreviousOf(cfg, log.files, i, outs[i].f.events);
  }
}
