/** A crash while rewrite mode handles one event: the event itself, or one of those generated before it. */
module RewriteCrashes {
  import opened Prelude
  import opened BinlogNames
  import opened ReaderContext
  import opened Streaming
  import opened Sessions
  import opened RewriteMode
  import opened RewriteJournal
  import SM = StorageModel
  import SR = StorageRuns

  // ----- the events one call processes -------------------------------------------------

  ghost function PrefacePart(cfg: Config, log: Log, c: Ctx, name: Name, g: Generated,
                             part: Part): Option<(Log, Ctx, Event)> {
    var open := ArtificialRotate(name, MAGIC_OFFSET);
    if part.Opening? then Some((log, c, open))
    else
      var r1 := ProcessEvent(log, c, open);
      if r1.Err? then None
      else if part.Describing? then Some((r1.value.0, r1.value.1, FdeOf(g, name)))
      else
        var r2 := ProcessEvent(r1.value.0, r1.value.1, FdeOf(g, name));
        if r2.Err? || !part.Prefacing? then None
        else Some((r2.value.0, r2.value.1, PglOf(cfg, r2.value.0.files, g, name)))
  }

  /** The log, the reader and the event at a part of rewrite_and_process_binlog_event, if it gets there. */
  ghost function PartOf(cfg: Config, log: Log, c: Ctx, e: Event, g: Generated, part: Part): Option<(Log, Ctx, Event)> {
    if IsSkipped(e) then None
    else if part.Storing? then
      var r := if NeedsFile(cfg, log, c) then NewFile(cfg, log, c, g) else Ok((log, c));
      if r.Err? || g.body.None? then None else Some((r.value.0, r.value.1, Relocated(r.value.0, e, g.body.value)))
    else if !NeedsFile(cfg, log, c) || FileToUse(cfg, log, c).None? then None
    else
      var name := FileToUse(cfg, log, c).value;
      if c.IsFresh() then PrefacePart(cfg, log, c, name, g, part)
      else
        var rotate := Made(Rotate, g.rotate, CurrentPosition(log), name);
        var r := ProcessEvent(log, c, rotate);
        if part.Finishing? then Some((log, c, rotate))
        else if r.Err? then None
        else PrefacePart(cfg, r.value.0, r.value.1, name, g, part)
  }

  // ----- what a crash may leave --------------------------------------------------------

  /** Files of rewrite mode, the last one as far as it goes. */
  ghost predicate Storable(cfg: Config, files: seq<FileLog>, outs: seq<Output>) {
    if files == [] then outs == []
    else
      var n := |files| - 1;
      && |outs| == n + 1 && FilesMade(cfg, files[..n], outs[..n]) && Fits(cfg, files[..n], files[n].name, outs[n])
      && files[n].evs <= Copy(GtidBased, outs[n].f.events)
  }

  lemma ConnectedStorable(cfg: Config, log: Log, c: Ctx, outs: seq<Output>)
    requires Connected(cfg, log, c, outs)
    ensures Storable(cfg, log.files, outs)
  {
    hide FilesMade, Fits, Conn;
    var f := LastOut(outs).f;
    StoredPart(log, c, f);
    CopyPrefix(GtidBased, f.events, |LastFile(log).evs|);
  }

  lemma PausedStorable(cfg: Config, log: Log, outs: seq<Output>)
    requires Paused(cfg, log, outs)
    ensures Storable(cfg, log.files, outs)
  {
    hide FilesMade, Fits;
  }

  lemma MadeStorable(cfg: Config, files: seq<FileLog>, outs: seq<Output>)
    requires FilesMade(cfg, files, outs)
    ensures Storable(cfg, files, outs)
  {
    hide Fits;
    if files != [] {
      var n := |files| - 1;
      assert files[n].evs <= Copy(GtidBased, outs[n].f.events);
    }
  }

  lemma EmptyStorable(cfg: Config, before: seq<FileLog>, outs: seq<Output>, name: Name)
    requires FilesMade(cfg, before, outs) && NameAfter(cfg, before) == Some(name)
    ensures Storable(cfg, before + [SM.FileLog(name, [])], outs + [Output(SrcFile(name, []), {})])
    ensures SameMarks(outs, outs + [Output(SrcFile(name, []), {})])
  {
    hide FilesMade;
    MadeLength(cfg, before, outs);
    var files, all := before + [SM.FileLog(name, [])], outs + [Output(SrcFile(name, []), {})];
    assert files[..|before|] == before && all[..|outs|] == outs;
    EmptySoFar();
  }

  /** Cut back to whole transactions the files are those of a pause. */
  lemma PauseTrimmed(cfg: Config, log: Log, outs: seq<Output>, files: seq<FileLog>) returns (outs': seq<Output>)
    requires Storable(cfg, log.files, outs) && Trimmed(log, files)
    ensures Paused(cfg, SR.Log(files, [], false), outs') && SameMarks(outs, outs')
    ensures Events(outs') == Kept(Events(outs), files)
    ensures |files| == |outs| && forall i :: 0 <= i < |files| ==> |files[i].evs| <= |outs[i].f.events|
  {
    hide Events, Kept, FilesMade, Shaped, PhaseOf, SoFar;
    outs' := outs;
    if files != [] {
      var n := |files| - 1;
      var o, k := outs[n], |files[n].evs|;
      outs' := outs[..n] + [Output(SrcFile(o.f.name, o.f.events[..k]), o.resumed)];
      assert outs'[..n] == outs[..n];
      PrefixOfPrefix(files[n].evs, log.files[n].evs, Copy(GtidBased, o.f.events));
      CopyPrefix(GtidBased, o.f.events, k);
      ShapedPrefix(cfg, files[..n], o, k);
      WholeAt(o.f.events, k);
      MadeKept(cfg, files, outs);
      CutLast(files, outs, outs');
    } else {
      MarksBasics(outs);
      KeptIs(Events(outs), files, Events(outs));
    }
  }

  // ----- lists of events ---------------------------------------------------------------

  /** Every file's events begin the list of that file. */
  ghost predicate Within(outs: seq<Output>, j: seq<seq<Event>>) {
    |outs| <= |j| && forall i :: 0 <= i < |outs| ==> outs[i].f.events <= j[i]
  }

  lemma WithinItself(outs: seq<Output>)
    ensures Within(outs, Events(outs))
  {
  }

  lemma WithinMore(outs: seq<Output>, j: seq<seq<Event>>, e: Event, list: seq<Event>)
    requires Within(outs, j)
    ensures Within(outs, Extended(j, e)) && Within(outs, j + [list])
  {
  }

  lemma WithinNew(outs: seq<Output>, j: seq<seq<Event>>, name: Name, list: seq<Event>)
    requires Within(outs, j) && |outs| == |j|
    ensures Within(outs + [Output(SrcFile(name, []), {})], j + [list])
  {
  }

  /** What the files keep of the lists is what they keep of their events. */
  lemma KeptWithin(outs: seq<Output>, j: seq<seq<Event>>, files: seq<FileLog>)
    requires Within(outs, j) && |files| == |outs|
    requires forall i :: 0 <= i < |files| ==> |files[i].evs| <= |outs[i].f.events|
    ensures Kept(j, files) == Kept(Events(outs), files)
  {
    var kept := seq(|files|, i requires 0 <= i < |files| => outs[i].f.events[..|files[i].evs|]);
    KeptIs(j, files, kept);
    KeptIs(Events(outs), files, kept);
  }

  lemma PrefixOfPrefix(a: seq<Ev>, b: seq<Ev>, c: seq<Ev>)
    requires a <= b <= c
    ensures a <= c && c[..|a|] == a
  {
  }

  lemma {:induction false} IdsBefore(a: seq<Ev>, b: seq<Ev>)
    requires a <= b
    ensures Ids(a) <= Ids(b)
  {
    assert b == a + b[|a|..];
    IdsConcat(a, b[|a|..]);
  }

  lemma TrimmedOrder(log: Log, files: seq<FileLog>)
    requires Trimmed(log, files)
    ensures Order(files) <= Order(log.files)
  {
    if files != [] {
      var n := |files| - 1;
      IdsBefore(files[n].evs, log.files[n].evs);
    }
  }

  // ----- every part --------------------------------------------------------------------

  /** Before or after a part: files that can be paused, with the transactions of before the event. */
  ghost predicate Moment(cfg: Config, was: Log, c: Ctx, outs: seq<Output>, log: Log, outs1: seq<Output>) {
    Storable(cfg, log.files, outs1) && Order(log.files) == Order(was.files) && MarksAfter(c, outs, outs1)
  }

  lemma SameMoment(cfg: Config, was: Log, c: Ctx, outs: seq<Output>, log: Log)
    requires Storable(cfg, was.files, outs) && log.files == was.files
    ensures Moment(cfg, was, c, outs, log, outs)
  {
    hide Storable;
    MarksBasics(outs);
  }

  lemma KeptMoments(cfg: Config, log: Log, c: Ctx, name: Name, g: Generated, files: seq<FileLog>, part: Part)
    requires PrefaceKeeps(cfg, log, c, name, g, files) && PrefacePart(cfg, log, c, name, g, part).Some?
    ensures var (log1, c1, e1) := PrefacePart(cfg, log, c, name, g, part).value;
      && log1.files == (if part.Opening? then log.files else files)
      && ProcessEvent(log1, c1, e1).Ok? && ProcessEvent(log1, c1, e1).value.0.files == files
  {
    hide ProcessEvent;
  }

  lemma FreshMoments(cfg: Config, log: Log, outs: seq<Output>, g: Generated, part: Part)
    returns (a: seq<Output>, b: seq<Output>)
    requires var c := FreshContext(log, GtidBased); Paused(cfg, log, outs) && NewFileFits(cfg, log, c, g)
    requires var c := FreshContext(log, GtidBased);
      FileToUse(cfg, log, c).Some? && PrefacePart(cfg, log, c, FileToUse(cfg, log, c).value, g, part).Some?
    ensures var c := FreshContext(log, GtidBased);
      var (log1, c1, e1) := PrefacePart(cfg, log, c, FileToUse(cfg, log, c).value, g, part).value;
      && Moment(cfg, log, c, outs, log1, a)
      && ProcessEvent(log1, c1, e1).Ok? && Moment(cfg, log, c, outs, ProcessEvent(log1, c1, e1).value.0, b)
      && Within(a, FileEvents(cfg, log, c, outs, g, part)) && Within(b, FileEvents(cfg, log, c, outs, g, part))
  {
    hide Moment, PrefacePart, Opened, PrefaceKeeps, ProcessEvent, PrefaceFits, Storable, Paused, Since, Within,
      FileEvents;
    var c := FreshContext(log, GtidBased);
    FreshBasics(cfg, log, outs);
    PausedStorable(cfg, log, outs);
    FreshWithin(cfg, log, outs, g, part);
    var (log1, c1, e1) := PrefacePart(cfg, log, c, FileToUse(cfg, log, c).value, g, part).value;
    if log.files == [] {
      NothingToPause(cfg, log, outs);
      var outs' := OpenFirst(cfg, log, g);
      KeptMoments(cfg, log, c, cfg.first, g, log.files + [SM.FileLog(cfg.first, [])], part);
      var outs1 := [] + [Output(SrcFile(cfg.first, []), {})];
      EmptyStorable(cfg, log.files, [], cfg.first);
      OrderSnoc(log.files, SM.FileLog(cfg.first, []));
      StartMoment(cfg, log, c, ProcessEvent(log1, c1, e1).value.0, outs1);
      b := outs1;
      if part.Opening? {
        a := outs;
        SameMoment(cfg, log, c, outs, log1);
      } else {
        a := outs1;
        StartMoment(cfg, log, c, log1, outs1);
      }
    } else {
      if LastFile(log).evs == [] {
        var outs' := OpenEmpty(cfg, log, outs, g);
      } else {
        OpenAgain(cfg, log, outs, g);
      }
      KeptMoments(cfg, log, c, LastFile(log).name, g, log.files, part);
      a, b := outs, outs;
      SameMoment(cfg, log, c, outs, log1);
      SameMoment(cfg, log, c, outs, ProcessEvent(log1, c1, e1).value.0);
    }
  }

  lemma FreshWithin(cfg: Config, log: Log, outs: seq<Output>, g: Generated, part: Part)
    requires FileToUse(cfg, log, FreshContext(log, GtidBased)).Some?
    ensures var j := FileEvents(cfg, log, FreshContext(log, GtidBased), outs, g, part);
      Within(outs, j) && (outs == [] ==> Within([] + [Output(SrcFile(cfg.first, []), {})], j))
  {
  }

  lemma StartMoment(cfg: Config, was: Log, c: Ctx, log: Log, outs1: seq<Output>)
    requires c.IsFresh() && Storable(cfg, log.files, outs1) && Order(log.files) == Order(was.files)
    requires SameMarks([], outs1)
    ensures Moment(cfg, was, c, [], log, outs1)
  {
    hide Storable;
  }

  lemma NothingToPause(cfg: Config, log: Log, outs: seq<Output>)
    requires Paused(cfg, log, outs) && log.files == []
    ensures outs == [] && !log.open && log.tail == [] && FilesMade(cfg, log.files, [])
  {
  }

  lemma FreshBasics(cfg: Config, log: Log, outs: seq<Output>)
    ensures FreshContext(log, GtidBased).IsFresh() && (log.files != [] ==> CurrentName(log) == Some(LastFile(log).name))
  {
  }

  /** ROTATE is written and the file closed, then the next one is created and prefaced. */
  lemma NextMoments(cfg: Config, log: Log, c: Ctx, outs: seq<Output>, e: Event, g: Generated, part: Part)
    returns (a: seq<Output>, b: seq<Output>)
    requires Connected(cfg, log, c, outs) && NeedsFile(cfg, log, c) && !c.IsFresh() && NewFileFits(cfg, log, c, g)
    requires !part.Storing? && NeedsFile(cfg, log, c) && !IsSkipped(e) && PartOf(cfg, log, c, e, g, part).Some?
    ensures var (log1, c1, e1) := PartOf(cfg, log, c, e, g, part).value;
      && Moment(cfg, log, c, outs, log1, a)
      && ProcessEvent(log1, c1, e1).Ok? && Moment(cfg, log, c, outs, ProcessEvent(log1, c1, e1).value.0, b)
      && Within(a, FileEvents(cfg, log, c, outs, g, part)) && Within(b, FileEvents(cfg, log, c, outs, g, part))
  {
    hide Within, FileEvents, IsWritten, ProcessEvent, PhaseOf, PrefaceFits, FilesMade, Shaped, Conn, PrefaceKeeps,
      RotateFits, CanEnter, PrefacePart, Moment, SameMarks, Storable, Preface;
    var name := FileToUse(cfg, log, c).value;
    var rotate := Made(Rotate, g.rotate, CurrentPosition(log), name);
    FinishFile(cfg, log, c, outs, name, g);
    var (log1, c1) := ProcessEvent(log, c, rotate).value;
    var outs1 := Continued(outs, rotate);
    FinishedOrder(cfg, log, log1, rotate);
    ContinuedMarks(outs, rotate);
    NextWithin(cfg, log, c, outs, g, part);
    MadeStorable(cfg, log1.files, outs1);
    EnoughMarks(cfg, log, c, outs, log1, outs1);
    if part.Finishing? {
      ConnectedStorable(cfg, log, c, outs);
      SameMoment(cfg, log, c, outs, log);
      a, b := outs, outs1;
    } else {
      PrefaceNew(cfg, log1, c1, outs1, name, g);
      var files := log1.files + [SM.FileLog(name, [])];
      KeptMoments(cfg, log1, c1, name, g, files, part);
      var outs2 := outs1 + [Output(SrcFile(name, []), {})];
      EmptyStorable(cfg, log1.files, outs1, name);
      OrderSnoc(log1.files, SM.FileLog(name, []));
      MarksStay(outs, outs1, outs2);
      var (log2, c2, e2) := PartOf(cfg, log, c, e, g, part).value;
      b := outs2;
      EnoughMarks(cfg, log, c, outs, ProcessEvent(log2, c2, e2).value.0, outs2);
      if part.Opening? {
        a := outs1;
        EnoughMarks(cfg, log, c, outs, log2, outs1);
      } else {
        a := outs2;
        EnoughMarks(cfg, log, c, outs, log2, outs2);
      }
    }
  }

  lemma NextWithin(cfg: Config, log: Log, c: Ctx, outs: seq<Output>, g: Generated, part: Part)
    requires !c.IsFresh() && FileToUse(cfg, log, c).Some? && outs != []
    ensures var j, name := FileEvents(cfg, log, c, outs, g, part), FileToUse(cfg, log, c).value;
      var outs1 := Continued(outs, Made(Rotate, g.rotate, CurrentPosition(log), name));
      && Within(outs, j) && Within(outs1, j)
      && (!part.Finishing? ==> Within(outs1 + [Output(SrcFile(name, []), {})], j))
  {
    hide Within, Events, Extended, PrefaceEvents, Continued;
    var name := FileToUse(cfg, log, c).value;
    var rotate := Made(Rotate, g.rotate, CurrentPosition(log), name);
    var head := PrefaceEvents(cfg, log.files, g, name, part);
    WithinItself(outs);
    WithinMore(outs, Events(outs), rotate, head);
    ContinuedEvents(outs, rotate);
    WithinItself(Continued(outs, rotate));
    WithinMore(outs, Extended(Events(outs), rotate), rotate, head);
    WithinMore(Continued(outs, rotate), Extended(Events(outs), rotate), rotate, head);
    WithinNew(Continued(outs, rotate), Extended(Events(outs), rotate), name, head);
  }

  lemma EnoughMarks(cfg: Config, was: Log, c: Ctx, outs: seq<Output>, log: Log, outs1: seq<Output>)
    requires !c.IsFresh() && Storable(cfg, log.files, outs1) && Order(log.files) == Order(was.files)
    requires SameMarks(outs, outs1)
    ensures Moment(cfg, was, c, outs, log, outs1)
  {
    hide Storable, SameMarks;
  }

  /**
   * Every part of the handling of one event: accepted, with files before and after it that can be paused, and with the
   * transactions of before the event until the event itself is stored.
   */
  lemma PartMoments(cfg: Config, log: Log, c: Ctx, outs: seq<Output>, e: Event, g: Generated, left: nat,
                    id: Option<Gtid>, part: Part)
    returns (a: seq<Output>, b: seq<Output>)
    requires Going(cfg, log, c, outs, left, id) && (left > 0 ==> id.Some?)
    requires !IsSkipped(e) && LeftAfter(left, e).Some? && AllFits(cfg, log, c, e, g)
    requires PartOf(cfg, log, c, e, g, part).Some?
    ensures RewriteEvent(cfg, log, c, e, g).Ok?
    ensures var (log1, c1, e1) := PartOf(cfg, log, c, e, g, part).value;
      && Moment(cfg, log, c, outs, log1, a)
      && ProcessEvent(log1, c1, e1).Ok?
      && var log2 := ProcessEvent(log1, c1, e1).value.0;
         if part.Storing? then
           log2 == RewriteEvent(cfg, log, c, e, g).value.0 && Storable(cfg, log2.files, b) && MarksAfter(c, outs, b)
         else Moment(cfg, log, c, outs, log2, b)
    ensures Within(a, HandledEvents(cfg, log, c, outs, e, g, part))
    ensures Within(b, HandledEvents(cfg, log, c, outs, e, g, part))
  {
    hide Within, FileEvents, Events, Extended, ProcessEvent, Paused, Connected, NewFile, CurrentPosition, Relocated,
      NewFileFits, RoomFor, BodyOk, PhaseOf, Order, Since, SameMarks, Moment, PrefacePart, Storable, Opened;
    GoingBasics(cfg, log, c, outs, left, id);
    if part.Storing? {
      b := RewriteStep(cfg, log, c, outs, e, g, left, id);
      var (log', c') := RewriteEvent(cfg, log, c, e, g).value;
      GoingBasics(cfg, log', c', b, LeftAfter(left, e).value, IdAfter(id, e));
      ConnectedStorable(cfg, log', c', b);
      if NeedsFile(cfg, log, c) {
        a := NewFileOpens(cfg, log, c, outs, g);
        var (log1, c1) := NewFile(cfg, log, c, g).value;
        OpenedMoment(cfg, log, c, outs, NewFile(cfg, log, c, g), a);
        WithinItself(a);
        WithinMore(a, Events(a), Relocated(log1, e, g.body.value), []);
      } else {
        a := outs;
        ConnectedStorable(cfg, log, c, outs);
        SameMoment(cfg, log, c, outs, log);
        WithinItself(a);
        WithinMore(a, Events(a), Relocated(log, e, g.body.value), []);
      }
      WithinItself(b);
    } else {
      var outs' := RewriteStep(cfg, log, c, outs, e, g, left, id);
      if c.IsFresh() {
        a, b := FreshMoments(cfg, log, outs, g, part);
      } else {
        a, b := NextMoments(cfg, log, c, outs, e, g, part);
      }
    }
  }

  lemma OpenedMoment(cfg: Config, was: Log, c: Ctx, outs: seq<Output>, r: Result<(Log, Ctx)>, outs1: seq<Output>)
    requires Opened(cfg, was, r, outs1) && MarksAfter(c, outs, outs1)
    ensures Moment(cfg, was, c, outs, r.value.0, outs1)
  {
    hide Connected, Storable, Order, MarksAfter;
    ConnectedStorable(cfg, r.value.0, r.value.1, outs1);
  }
}
