/**
 * events::reader_context: the automaton that checks the incoming event stream, finds transaction
 * boundaries and decides which events are informational only.
 */
module ReaderContext {
  import opened Prelude
  import opened BinlogNames

  const U32: nat := 0x1_0000_0000

  datatype Code = Rotate | FormatDescription | PreviousGtids | AnonymousGtid | GtidLog | GtidTagged | Stop | Other

  /** The fields of an event view the automaton and the storage look at. */
  datatype Event = Event(
    code: Code, artificial: bool, ts: nat, size: nat, nextPos: nat, data: seq<Byte>,
    target: Name, targetPos: nat,               // ROTATE
    gtid: Option<Gtid>, seqno: nat, txLength: nat, // the three GTID events
    bodyOk: bool)                                // content checks of FORMAT_DESCRIPTION
  {
    predicate IsGtid() { code.AnonymousGtid? || code.GtidLog? || code.GtidTagged? }
    predicate IsArtificialRotate() { code.Rotate? && artificial }
    predicate IsTerminator() { (code.Rotate? && !artificial) || code.Stop? }
  }

  datatype Expecting =
    | RotateArtificial | Description | Previous | GtidEvent | AnyOther | RotateOrStop

  datatype Ctx = Ctx(state: Expecting, mode: ReplicationMode, name: Option<Name>, pos: nat,
                     gtid: Option<Gtid>, seqno: nat, expected: nat, seen: nat,
                     infoOnlyPreamble: bool, cycle: nat)
  {
    predicate IsFresh() { cycle == 0 }

    predicate AtBoundary() {
      (state.AnyOther? && seen == expected) || state.RotateArtificial?
    }
  }

  /** The constructor: a zero position stands for the start of a file. */
  function Fresh(mode: ReplicationMode, name: Option<Name>, position: nat): Ctx {
    var p := position % U32;
    Ctx(RotateArtificial, mode, name, if p == 0 then MAGIC_OFFSET else p, None, 0, 0, 0, false, 0)
  }

  datatype Step = Raise | Again(ctx: Ctx) | Done(ctx: Ctx, infoOnly: bool)

  // ----- helpers of the source, 32-bit arithmetic included -----------------------------

  predicate PositionOk(c: Ctx, e: Event) {
    e.nextPos != 0 && (c.pos + e.size) % U32 == e.nextPos
  }

  function Finish(c: Ctx): Option<Ctx> {
    if c.seen != c.expected then None else Some(c.(gtid := None, seqno := 0, expected := 0, seen := 0))
  }

  function Start(c: Ctx, e: Event): Option<Ctx> {
    if e.code.AnonymousGtid? && e.gtid.Some? then None
    else if !e.code.AnonymousGtid? && e.gtid.None? then None
    else if e.txLength >= U32 then None
    else Some(c.(gtid := if e.code.AnonymousGtid? then c.gtid else e.gtid,
                 seqno := e.seqno, expected := e.txLength, seen := e.size % U32))
  }

  // ----- one function per state --------------------------------------------------------

  function InRotateArtificial(c: Ctx, e: Event): Step {
    var same := c.name == Some(e.target);
    if !e.IsArtificialRotate() || e.ts != 0 || e.nextPos != 0 then Raise
    else if e.targetPos != (if c.mode == Position && same then c.pos else MAGIC_OFFSET) then Raise
    else
      Done(c.(infoOnlyPreamble := c.cycle == 0 && same && c.pos > MAGIC_OFFSET,
              name := Some(e.target), pos := if same then c.pos else MAGIC_OFFSET,
              cycle := c.cycle + 1, state := Description), true)
  }

  function InDescription(c: Ctx, e: Event): Step {
    var info := c.infoOnlyPreamble;
    if !e.code.FormatDescription? || e.artificial || !e.bodyOk then Raise
    else if c.mode == Position && info && e.nextPos != 0 then Raise
    else if !info && !PositionOk(c, e) then Raise
    else
      Done(c.(pos := if info then c.pos else e.nextPos,
              state := if c.mode == Position && info then GtidEvent else Previous), info)
  }

  function InPrevious(c: Ctx, e: Event): Step {
    var info := c.infoOnlyPreamble;
    if !e.code.PreviousGtids? || e.artificial then Raise
    else if !info && !PositionOk(c, e) then Raise
    else Done(c.(pos := if info then c.pos else e.nextPos, state := GtidEvent), info)
  }

  function InGtidEvent(c: Ctx, e: Event): Step {
    var f := Finish(c);
    if e.IsArtificialRotate() then
      if f.None? then Raise else Again(f.value.(pos := MAGIC_OFFSET, state := RotateArtificial))
    else if e.code.Rotate? || e.code.Stop? then
      if f.None? then Raise else Again(f.value.(state := RotateOrStop))
    else if !e.IsGtid() || (c.mode == GtidBased && e.code.AnonymousGtid?) then Raise
    else
      var s := Start(c, e);
      if s.None? || !PositionOk(s.value, e) then Raise
      else Done(s.value.(pos := e.nextPos, state := AnyOther), false)
  }

  function InAnyOther(c: Ctx, e: Event): Step {
    var f := Finish(c);
    if e.IsGtid() then
      if f.None? then Raise else Again(f.value.(state := GtidEvent))
    else if e.IsArtificialRotate() then
      if f.None? then Raise else Again(f.value.(pos := MAGIC_OFFSET, state := RotateArtificial))
    else if e.code.Rotate? || e.code.Stop? then
      if f.None? then Raise else Again(f.value.(state := RotateOrStop))
    else if e.code.FormatDescription? || e.code.PreviousGtids? || e.artificial then Raise
    else
      var seen := (c.seen + e.size) % U32;
      if seen > c.expected || !PositionOk(c, e) then Raise
      else Done(c.(seen := seen, pos := e.nextPos), false)
  }

  function InRotateOrStop(c: Ctx, e: Event): Step {
    if !(e.code.Rotate? || e.code.Stop?) || e.artificial then Raise
    else if e.code.Rotate? && e.targetPos != MAGIC_OFFSET then Raise
    else if !PositionOk(c, e) then Raise
    else Done(c.(pos := MAGIC_OFFSET, state := RotateArtificial), false)
  }

  function Dispatch(c: Ctx, e: Event): Step {
    match c.state
    case RotateArtificial => InRotateArtificial(c, e)
    case Description => InDescription(c, e)
    case Previous => InPrevious(c, e)
    case GtidEvent => InGtidEvent(c, e)
    case AnyOther => InAnyOther(c, e)
    case RotateOrStop => InRotateOrStop(c, e)
  }

  function Rank(s: Expecting): nat {
    if s.AnyOther? then 2 else if s.GtidEvent? then 1 else 0
  }

  /** process_event_view: states are tried until one of them consumes the event. */
  function Process(c: Ctx, e: Event): (r: Result<(Ctx, bool)>)
    decreases Rank(c.state)
  {
    match Dispatch(c, e)
    case Raise => Err
    case Done(c', info) => Ok((c', info))
    case Again(c') => Process(c', e)
  }

  /** The mutable object; its loop over states is proved to terminate and to compute Process. */
  class Reader {
    var state: Expecting
    const mode: ReplicationMode
    var name: Option<Name>
    var pos: nat
    var gtid: Option<Gtid>
    var seqno: nat
    var expected: nat
    var seen: nat
    var infoOnlyPreamble: bool
    var cycle: nat

    function View(): Ctx
      reads this
    {
      Ctx(state, mode, name, pos, gtid, seqno, expected, seen, infoOnlyPreamble, cycle)
    }

    constructor (mode: ReplicationMode, name: Option<Name>, position: nat)
      ensures View() == Fresh(mode, name, position)
    {
      state, this.mode, this.name := RotateArtificial, mode, name;
      pos := if position % U32 == 0 then MAGIC_OFFSET else position % U32;
      gtid, seqno, expected, seen := None, 0, 0, 0;
      infoOnlyPreamble, cycle := false, 0;
    }

    method Assign(c: Ctx)
      requires c.mode == mode
      modifies this
      ensures View() == c
    {
      state, name, pos, gtid, seqno := c.state, c.name, c.pos, c.gtid, c.seqno;
      expected, seen, infoOnlyPreamble, cycle := c.expected, c.seen, c.infoOnlyPreamble, c.cycle;
    }

    method ProcessEventView(e: Event) returns (r: Result<bool>)
      modifies this
      ensures r.Ok? <==> Process(old(View()), e).Ok?
      ensures r.Ok? ==> (View(), r.value) == Process(old(View()), e).value
    {
      ghost var start := View();
      while true
        invariant Process(View(), e) == Process(start, e)
        decreases Rank(state)
      {
        var step := Dispatch(View(), e);
        match step
        case Raise => return Err;
        case Done(c, info) =>
          Assign(c);
          return Ok(info);
        case Again(c) =>
          Assign(c);
      }
    }
  }
}
