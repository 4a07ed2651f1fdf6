/**
 * The body of GTID_TAGGED_LOG read back: what the rewriter writes is what a reader finds, and rewriting an event
 * changes its two numbers and its length only.
 */
module TaggedCodec {
  import opened Prelude
  import opened VarlenInt
  import opened Rewriter

  // ----- one field ---------------------------------------------------------------------

  lemma Shrinks(s: seq<Byte>, max: nat)
    requires DecodeVarlen(s, max).Some?
    ensures |DecodeVarlen(s, max).value.1| < |s|
  {
    hide ShiftRight, Raised, FromLittle, Or, TrailingOnes;
  }

  lemma SignedShrinks(s: seq<Byte>)
    requires DecodeSigned(s, 64).Some?
    ensures |DecodeSigned(s, 64).value.1| < |s|
  {
    hide DecodeVarlen, UnZigZag, Pow2;
    Shrinks(s, Pow2(64) - 1);
  }

  lemma ByteWithin(s: seq<Byte>)
    requires DecodeVarlen(s, 255).Some?
    ensures DecodeVarlen(s, 255).value.0 < 256
  {
    hide DecodeVarlen, Pow2;
    Powers();
    DecodeWithin(s, 8);
  }

  /** Bytes that are each written as an integer of their own. */
  function ReadUuid(s: seq<Byte>, n: nat): (r: Option<(seq<Byte>, seq<Byte>)>)
    ensures r.Some? ==> |r.value.1| <= |s|
  {
    if n == 0 then Some(([], s))
    else
      var first := DecodeVarlen(s, 255);
      if first.None? then None
      else
        Shrinks(s, 255);
        ByteWithin(s);
        var rest := ReadUuid(first.value.1, n - 1);
        if rest.None? then None else Some(([first.value.0] + rest.value.0, rest.value.1))
  }

  function ReadTag(s: seq<Byte>): (r: Option<(seq<Byte>, seq<Byte>)>)
    ensures r.Some? ==> |r.value.1| <= |s|
  {
    var length := DecodeVarlen(s, U64 - 1);
    if length.None? || length.value.0 > MAX_TAG || length.value.0 > |length.value.1| then None
    else
      Shrinks(s, U64 - 1);
      Some((length.value.1[..length.value.0], length.value.1[length.value.0..]))
  }

  function ReadUnsigned(s: seq<Byte>, max: nat): (r: Option<(nat, seq<Byte>)>)
    ensures r.Some? ==> |r.value.1| <= |s|
  {
    var r := DecodeVarlen(s, max);
    if r.Some? then Shrinks(s, max); r else r
  }

  function ReadSigned(s: seq<Byte>): (r: Option<(int, seq<Byte>)>)
    ensures r.Some? ==> |r.value.1| <= |s|
  {
    var r := DecodeSigned(s, 64);
    if r.Some? then SignedShrinks(s); r else r
  }

  /** The largest value of an optional member stands for its absence. */
  function Unless(v: nat, unset: nat): Option<nat> {
    if v == unset then None else Some(v)
  }

  /** process_field_data: one member is replaced; an unknown field raises. */
  function ReadField(id: nat, s: seq<Byte>, b: Tagged): (r: Option<(Tagged, seq<Byte>)>)
    ensures r.Some? ==> |r.value.1| <= |s|
  {
    match id
    case 0 =>
      var r := ReadUnsigned(s, 255);
      if r.None? then None else ByteWithin(s); Some((b.(flags := r.value.0), r.value.1))
    case 1 =>
      var r := ReadUuid(s, 16);
      if r.None? then None else Some((b.(uuid := r.value.0), r.value.1))
    case 2 =>
      var r := ReadSigned(s);
      if r.None? then None else Some((b.(gno := r.value.0), r.value.1))
    case 3 =>
      var r := ReadTag(s);
      if r.None? then None else Some((b.(tag := r.value.0), r.value.1))
    case 4 =>
      var r := ReadSigned(s);
      if r.None? then None else Some((b.(lastCommitted := r.value.0), r.value.1))
    case 5 =>
      var r := ReadSigned(s);
      if r.None? then None else Some((b.(sequence := r.value.0), r.value.1))
    case 6 =>
      var r := ReadUnsigned(s, U64 - 1);
      if r.None? then None else Some((b.(immediateTime := r.value.0), r.value.1))
    case 7 =>
      var r := ReadUnsigned(s, U64 - 1);
      if r.None? then None else Some((b.(originalTime := Unless(r.value.0, U64 - 1)), r.value.1))
    case 8 =>
      var r := ReadUnsigned(s, U64 - 1);
      if r.None? then None else Some((b.(txLength := r.value.0), r.value.1))
    case 9 =>
      var r := ReadUnsigned(s, U32 - 1);
      if r.None? then None else Some((b.(immediateVersion := r.value.0), r.value.1))
    case 10 =>
      var r := ReadUnsigned(s, U32 - 1);
      if r.None? then None else Some((b.(originalVersion := Unless(r.value.0, U32 - 1)), r.value.1))
    case 11 =>
      var r := ReadUnsigned(s, U64 - 1);
      if r.None? then None else Some((b.(ticket := Unless(r.value.0, U64 - 1)), r.value.1))
    case _ => None
  }

  // ----- the body ----------------------------------------------------------------------

  /** The fields read so far, the last of their ids and the required ones that are still missing. */
  datatype Reading = Reading(last: Option<nat>, missing: set<nat>, b: Tagged)

  const REQUIRED: set<nat> := {0, 1, 2, 3, 4, 5, 6, 8, 9}

  function Blank(): Tagged {
    Tagged(0, seq(16, _ => 0), 0, [], 0, 0, U64 - 1, None, U64 - 1, U32 - 1, None, None)
  }

  /** The fields up to the end: ids ascend, every required field is there, nothing is left over. */
  function ReadFields(s: seq<Byte>, r: Reading): Result<Tagged>
    decreases |s|
  {
    var id := ReadUnsigned(s, 255);
    if id.None? then
      if r.missing == {} && s == [] then Ok(r.b) else Err
    else if r.last.Some? && id.value.0 <= r.last.value then Err
    else
      Shrinks(s, 255);
      var f := ReadField(id.value.0, id.value.1, r.b);
      if f.None? then Err
      else ReadFields(f.value.1, Reading(Some(id.value.0), r.missing - {id.value.0}, f.value.0))
  }

  function ReadBody(s: seq<Byte>): Result<Tagged> {
    var version := ReadUnsigned(s, 255);
    if version.None? || version.value.0 != 1 then Err
    else
      var size := ReadUnsigned(version.value.1, U64 - 1);
      if size.None? || size.value.0 != |s| then Err
      else
        var ignorable := ReadUnsigned(size.value.1, 255);
        if ignorable.None? || ignorable.value.0 != 0 then Err
        else ReadFields(ignorable.value.1, Reading(None, REQUIRED, Blank()))
  }

  // ----- exactly which bodies are accepted ---------------------------------------------

  /** The ids of the fields that can be read one after the other, and what is left behind them. */
  function Walk(s: seq<Byte>, b: Tagged): (seq<nat>, seq<Byte>)
    decreases |s|
  {
    var id := ReadUnsigned(s, 255);
    if id.None? then ([], s)
    else
      Shrinks(s, 255);
      var f := ReadField(id.value.0, id.value.1, b);
      if f.None? then ([], s)
      else
        var (ids, rest) := Walk(f.value.1, f.value.0);
        ([id.value.0] + ids, rest)
  }

  /** Only the fields of the protocol are ever read. */
  lemma {:induction false} KnownFields(s: seq<Byte>, b: Tagged)
    ensures forall i :: 0 <= i < |Walk(s, b).0| ==> Walk(s, b).0[i] < 12
    decreases |s|
  {
    hide DecodeVarlen;
    var id := ReadUnsigned(s, 255);
    if id.Some? {
      Shrinks(s, 255);
      KnownField(id.value.0, id.value.1, b);
      var f := ReadField(id.value.0, id.value.1, b);
      if f.Some? { KnownFields(f.value.1, f.value.0); }
    }
  }

  lemma KnownField(id: nat, s: seq<Byte>, b: Tagged)
    ensures ReadField(id, s, b).Some? ==> id < 12
  {
    hide ReadUnsigned, ReadSigned, ReadUuid, ReadTag;
  }

  ghost predicate Ascending(last: Option<nat>, ids: seq<nat>) {
    && (last.Some? && ids != [] ==> last.value < ids[0])
    && forall i, j :: 0 <= i < j < |ids| ==> ids[i] < ids[j]
  }

  lemma AscendingFrom(last: Option<nat>, id: nat, ids: seq<nat>)
    ensures Ascending(last, [id] + ids) <==> (last.Some? ==> last.value < id) && Ascending(Some(id), ids)
  {
    var all := [id] + ids;
    assert forall i :: 0 <= i < |ids| ==> all[i + 1] == ids[i];
    if Ascending(last, all) {
      if ids != [] { assert all[0] < all[1]; }
      forall i, j | 0 <= i < j < |ids| ensures ids[i] < ids[j] { assert all[i + 1] < all[j + 1]; }
    } else if (last.Some? ==> last.value < id) && Ascending(Some(id), ids) {
      forall i, j | 0 <= i < j < |all| ensures all[i] < all[j] {
        if i == 0 { assert ids[0] <= ids[j - 1]; } else { assert ids[i - 1] < ids[j - 1]; }
      }
    }
  }

  lemma MissingFrom(missing: set<nat>, id: nat, ids: seq<nat>)
    ensures (forall i :: i in missing ==> i in [id] + ids) <==> forall i :: i in missing - {id} ==> i in ids
  {
    if forall i :: i in missing ==> i in [id] + ids {
      forall i | i in missing - {id} ensures i in ids { assert i in [id] + ids; }
    }
  }

  /** The fields are accepted iff they reach the end, their ids ascend and no required one is missing. */
  lemma {:induction false} FieldsIff(s: seq<Byte>, r: Reading)
    ensures ReadFields(s, r).Ok?
      <==> var (ids, rest) := Walk(s, r.b);
           rest == [] && Ascending(r.last, ids) && forall i :: i in r.missing ==> i in ids
    decreases |s|
  {
    hide DecodeVarlen, ReadField;
    var id := ReadUnsigned(s, 255);
    if id.Some? {
      Shrinks(s, 255);
      var f := ReadField(id.value.0, id.value.1, r.b);
      if f.Some? {
        var (ids, rest) := Walk(f.value.1, f.value.0);
        FieldsIff(f.value.1, Reading(Some(id.value.0), r.missing - {id.value.0}, f.value.0));
        AscendingFrom(r.last, id.value.0, ids);
        MissingFrom(r.missing, id.value.0, ids);
      }
    }
  }

  /** A body is accepted iff it has version 1, announces its own size, and its fields are accepted. */
  lemma BodyIff(s: seq<Byte>)
    ensures ReadBody(s).Ok?
      <==> exists fields ::
             && ReadsHeader(s, fields)
             && var (ids, rest) := Walk(fields, Blank());
                rest == [] && Ascending(None, ids) && forall i :: i in REQUIRED ==> i in ids
  {
    hide ReadFields, Walk, ReadUnsigned, Ascending;
    if ReadBody(s).Ok? {
      var fields := ReadUnsigned(ReadUnsigned(ReadUnsigned(s, 255).value.1, U64 - 1).value.1, 255).value.1;
      FieldsIff(fields, Reading(None, REQUIRED, Blank()));
      assert ReadsHeader(s, fields);
    }
    if fields :| ReadsHeader(s, fields)
                 && var (ids, rest) := Walk(fields, Blank());
                    rest == [] && Ascending(None, ids) && forall i :: i in REQUIRED ==> i in ids {
      FieldsIff(fields, Reading(None, REQUIRED, Blank()));
    }
  }

  /** The version, the size of the whole body and the zero in front of the fields. */
  ghost predicate ReadsHeader(s: seq<Byte>, fields: seq<Byte>) {
    exists a, b ::
      && ReadUnsigned(s, 255) == Some((1, a)) && ReadUnsigned(a, U64 - 1) == Some((|s|, b))
      && ReadUnsigned(b, 255) == Some((0, fields))
  }

  /** The constructor from bytes; its loop takes one field after the other. */
  method DecodeBody(portion: seq<Byte>) returns (r: Result<Tagged>)
    ensures r == ReadBody(portion)
  {
    hide DecodeVarlen, ReadField;
    var version := ReadUnsigned(portion, 255);
    if version.None? || version.value.0 != 1 { return Err; }
    var size := ReadUnsigned(version.value.1, U64 - 1);
    if size.None? || size.value.0 != |portion| { return Err; }
    var ignorable := ReadUnsigned(size.value.1, 255);
    if ignorable.None? || ignorable.value.0 != 0 { return Err; }
    var remainder, last, missing, body := ignorable.value.1, None, REQUIRED, Blank();
    var id := ReadUnsigned(remainder, 255);
    while id.Some?
      invariant id == ReadUnsigned(remainder, 255)
      invariant ReadFields(remainder, Reading(last, missing, body)) == ReadBody(portion)
      decreases |remainder|
    {
      if last.Some? && id.value.0 <= last.value { return Err; }
      Shrinks(remainder, 255);
      var field := ReadField(id.value.0, id.value.1, body);
      if field.None? { return Err; }
      body, remainder := field.value.0, field.value.1;
      missing, last := missing - {id.value.0}, Some(id.value.0);
      id := ReadUnsigned(remainder, 255);
    }
    r := if missing == {} && remainder == [] then Ok(body) else Err;
  }

  // ----- what was written --------------------------------------------------------------

  lemma UnsignedTrip(v: nat, max: nat, rest: seq<Byte>)
    requires v <= max < U64
    ensures ReadUnsigned(EncodeVarlen(v) + rest, max) == Some((v, rest))
  {
    hide DecodeVarlen, EncodeVarlen;
    VarlenRoundTrip(v, max, rest);
  }

  lemma SignedTrip(v: int, rest: seq<Byte>)
    requires Signed(v, 64)
    ensures ReadSigned(EncodeSigned(v, 64) + rest) == Some((v, rest))
  {
    hide DecodeSigned, EncodeSigned;
    SignedRoundTrip(v, 64, rest);
  }

  lemma {:induction false} UuidTrip(uuid: seq<Byte>, rest: seq<Byte>)
    ensures ReadUuid(EncodeUuid(uuid) + rest, |uuid|) == Some((uuid, rest))
  {
    hide DecodeVarlen, EncodeVarlen;
    if uuid == [] {
      assert EncodeUuid(uuid) + rest == rest;
    } else {
      var more := EncodeUuid(uuid[1..]) + rest;
      assert EncodeUuid(uuid) + rest == EncodeVarlen(uuid[0]) + more;
      VarlenRoundTrip(uuid[0], 255, more);
      UuidTrip(uuid[1..], rest);
      assert [uuid[0]] + uuid[1..] == uuid;
    }
  }

  lemma TagTrip(tag: seq<Byte>, rest: seq<Byte>)
    requires |tag| <= MAX_TAG
    ensures ReadTag(EncodeVarlen(|tag|) + tag + rest) == Some((tag, rest))
  {
    hide DecodeVarlen, EncodeVarlen;
    assert EncodeVarlen(|tag|) + tag + rest == EncodeVarlen(|tag|) + (tag + rest);
    VarlenRoundTrip(|tag|, U64 - 1, tag + rest);
  }

  /** A field in its place: its id is read, then its value, and the rest goes on with it. */
  lemma OneField(id: nat, value: seq<Byte>, rest: seq<Byte>, r: Reading, b: Tagged)
    requires id < 12 && (r.last.Some? ==> r.last.value < id)
    requires ReadField(id, value + rest, r.b) == Some((b, rest))
    ensures ReadFields(EncodeVarlen(id) + value + rest, r) == ReadFields(rest, Reading(Some(id), r.missing - {id}, b))
  {
    hide ReadField, EncodeVarlen, ReadUnsigned;
    assert EncodeVarlen(id) + value + rest == EncodeVarlen(id) + (value + rest);
    UnsignedTrip(id, 255, value + rest);
  }

  /** The bytes of a field behind its id; nothing for an absent one. */
  function Value(b: Tagged, id: nat): Option<seq<Byte>>
    requires InRange(b)
  {
    match id
    case 0 => Some(EncodeVarlen(b.flags))
    case 1 => Some(EncodeUuid(b.uuid))
    case 2 => Some(EncodeSigned(b.gno, 64))
    case 3 => Some(EncodeVarlen(|b.tag|) + b.tag)
    case 4 => Some(EncodeSigned(b.lastCommitted, 64))
    case 5 => Some(EncodeSigned(b.sequence, 64))
    case 6 => Some(EncodeVarlen(b.immediateTime))
    case 7 => if b.originalTime.None? then None else Some(EncodeVarlen(b.originalTime.value))
    case 8 => Some(EncodeVarlen(b.txLength))
    case 9 => Some(EncodeVarlen(b.immediateVersion))
    case 10 => if b.originalVersion.None? then None else Some(EncodeVarlen(b.originalVersion.value))
    case 11 => if b.ticket.None? then None else Some(EncodeVarlen(b.ticket.value))
    case _ => None
  }

  /** The members with the first n ids. */
  function Partly(b: Tagged, n: nat): Tagged {
    var z := Blank();
    Tagged(if n > 0 then b.flags else z.flags, if n > 1 then b.uuid else z.uuid, if n > 2 then b.gno else z.gno,
           if n > 3 then b.tag else z.tag, if n > 4 then b.lastCommitted else z.lastCommitted,
           if n > 5 then b.sequence else z.sequence, if n > 6 then b.immediateTime else z.immediateTime,
           if n > 7 then b.originalTime else z.originalTime, if n > 8 then b.txLength else z.txLength,
           if n > 9 then b.immediateVersion else z.immediateVersion,
           if n > 10 then b.originalVersion else z.originalVersion, if n > 11 then b.ticket else z.ticket)
  }

  lemma NumberTrip(b: Tagged, id: nat, rest: seq<Byte>)
    requires InRange(b) && id in {0, 2, 4, 5, 6, 8, 9}
    ensures ReadField(id, Value(b, id).value + rest, Partly(b, id)) == Some((Partly(b, id + 1), rest))
  {
    hide EncodeVarlen, EncodeSigned, ReadUnsigned, ReadSigned, Signed, Blank;
    match id
    case 0 => UnsignedTrip(b.flags, 255, rest);
    case 2 => SignedTrip(b.gno, rest);
    case 4 => SignedTrip(b.lastCommitted, rest);
    case 5 => SignedTrip(b.sequence, rest);
    case 6 => UnsignedTrip(b.immediateTime, U64 - 1, rest);
    case 8 => UnsignedTrip(b.txLength, U64 - 1, rest);
    case 9 => UnsignedTrip(b.immediateVersion, U32 - 1, rest);
  }

  lemma OptionalTrip(b: Tagged, id: nat, rest: seq<Byte>)
    requires InRange(b) && id in {7, 10, 11} && Value(b, id).Some?
    ensures ReadField(id, Value(b, id).value + rest, Partly(b, id)) == Some((Partly(b, id + 1), rest))
  {
    hide EncodeVarlen, ReadUnsigned, Signed, Blank;
    match id
    case 7 => UnsignedTrip(b.originalTime.value, U64 - 1, rest);
    case 10 => UnsignedTrip(b.originalVersion.value, U32 - 1, rest);
    case 11 => UnsignedTrip(b.ticket.value, U64 - 1, rest);
  }

  lemma NamesTrip(b: Tagged, id: nat, rest: seq<Byte>)
    requires InRange(b) && id in {1, 3}
    ensures ReadField(id, Value(b, id).value + rest, Partly(b, id)) == Some((Partly(b, id + 1), rest))
  {
    hide EncodeVarlen, EncodeUuid, ReadUuid, ReadTag, Signed, Blank;
    match id
    case 1 => UuidTrip(b.uuid, rest);
    case 3 => TagTrip(b.tag, rest);
  }

  /** A field that is there is read as the member it was written from. */
  lemma ValueTrip(b: Tagged, id: nat, rest: seq<Byte>)
    requires InRange(b) && id < 12 && Value(b, id).Some?
    ensures ReadField(id, Value(b, id).value + rest, Partly(b, id)) == Some((Partly(b, id + 1), rest))
  {
    hide Value, ReadField, Partly;
    if id in {1, 3} {
      NamesTrip(b, id, rest);
    } else if id in {7, 10, 11} {
      OptionalTrip(b, id, rest);
    } else {
      NumberTrip(b, id, rest);
    }
  }

  lemma Absent(b: Tagged, id: nat)
    requires InRange(b) && id < 12 && Value(b, id).None?
    ensures Partly(b, id + 1) == Partly(b, id) && id !in REQUIRED
  {
    hide EncodeVarlen, EncodeSigned, EncodeUuid, Signed;
  }

  function Field(b: Tagged, id: nat): seq<Byte>
    requires InRange(b) && id < 12
  {
    if Value(b, id).None? then [] else EncodeVarlen(id) + Value(b, id).value
  }

  /** The fields from an id on. */
  function FieldsFrom(b: Tagged, id: nat): seq<Byte>
    requires InRange(b) && id <= 12
    decreases 12 - id
  {
    if id == 12 then [] else Field(b, id) + FieldsFrom(b, id + 1)
  }

  ghost function Missing(id: nat): set<nat> {
    set i | i in REQUIRED && i >= id
  }

  lemma {:induction false} FieldsTrip(b: Tagged, id: nat, last: Option<nat>)
    requires InRange(b) && id <= 12 && (last.Some? ==> last.value < id)
    ensures ReadFields(FieldsFrom(b, id), Reading(last, Missing(id), Partly(b, id))) == Ok(b)
    decreases 12 - id
  {
    hide Value, ReadField, Partly, EncodeVarlen, InRange, ReadUnsigned;
    if id == 12 {
      Complete(b);
    } else if Value(b, id).None? {
      Absent(b, id);
      assert Missing(id) == Missing(id + 1);
      assert FieldsFrom(b, id) == FieldsFrom(b, id + 1);
      FieldsTrip(b, id + 1, last);
    } else {
      var rest := FieldsFrom(b, id + 1);
      ValueTrip(b, id, rest);
      OneField(id, Value(b, id).value, rest, Reading(last, Missing(id), Partly(b, id)), Partly(b, id + 1));
      assert Missing(id) - {id} == Missing(id + 1);
      FieldsTrip(b, id + 1, Some(id));
    }
  }

  lemma Complete(b: Tagged)
    ensures Partly(b, 12) == b && Missing(12) == {} && ReadUnsigned([], 255) == None
  {
  }

  lemma Assoc(a: seq<Byte>, b: seq<Byte>, c: seq<Byte>)
    ensures (a + b) + c == a + (b + c)
  {
  }

  lemma Twelve(c: seq<seq<Byte>>)
    requires |c| == 12
    ensures c[0] + c[1] + c[2] + c[3] + c[4] + c[5] + c[6] + c[7] + c[8] + c[9] + c[10] + c[11]
         == c[0] + (c[1] + (c[2] + (c[3] + (c[4] + (c[5] + (c[6] + (c[7] + (c[8] + (c[9] + (c[10] + c[11]))))))))))
  {
    var a2 := c[0] + c[1] + c[2];
    var a5 := a2 + c[3] + c[4] + c[5];
    var a8 := a5 + c[6] + c[7] + c[8];
    var z9 := c[9] + (c[10] + c[11]);
    var z6 := c[6] + (c[7] + (c[8] + z9));
    var z3 := c[3] + (c[4] + (c[5] + z6));
    Four(a8, c[9], c[10], c[11]);
    Four(a5, c[6], c[7], c[8] + z9);
    Assoc(a5 + c[6] + c[7], c[8], z9);
    Four(a2, c[3], c[4], c[5] + z6);
    Assoc(a2 + c[3] + c[4], c[5], z6);
    Four(c[0], c[1], c[2], z3);
  }

  lemma Four(a: seq<Byte>, b: seq<Byte>, c: seq<Byte>, d: seq<Byte>)
    ensures a + b + c + d == a + (b + (c + d))
  {
    Assoc(a, b, c);
    Assoc(a, b + c, d);
    Assoc(b, c, d);
  }

  ghost function Fields(b: Tagged): (c: seq<seq<Byte>>)
    requires InRange(b)
    ensures |c| == 12
  {
    seq(12, i requires 0 <= i < 12 => Field(b, i))
  }

  lemma RightNested(b: Tagged)
    requires InRange(b)
    ensures var c := Fields(b);
      FieldsFrom(b, 0)
      == c[0] + (c[1] + (c[2] + (c[3] + (c[4] + (c[5] + (c[6] + (c[7] + (c[8] + (c[9] + (c[10] + c[11]))))))))))
  {
    hide Field;
    assert FieldsFrom(b, 12) == [];
    assert FieldsFrom(b, 11) == Field(b, 11) + [] == Field(b, 11);
    assert FieldsFrom(b, 10) == Field(b, 10) + Field(b, 11);
    assert FieldsFrom(b, 9) == Field(b, 9) + FieldsFrom(b, 10);
    assert FieldsFrom(b, 8) == Field(b, 8) + FieldsFrom(b, 9);
    assert FieldsFrom(b, 7) == Field(b, 7) + FieldsFrom(b, 8);
    assert FieldsFrom(b, 6) == Field(b, 6) + FieldsFrom(b, 7);
    assert FieldsFrom(b, 5) == Field(b, 5) + FieldsFrom(b, 6);
    assert FieldsFrom(b, 4) == Field(b, 4) + FieldsFrom(b, 5);
    assert FieldsFrom(b, 3) == Field(b, 3) + FieldsFrom(b, 4);
    assert FieldsFrom(b, 2) == Field(b, 2) + FieldsFrom(b, 3);
    assert FieldsFrom(b, 1) == Field(b, 1) + FieldsFrom(b, 2);
  }

  /** The section is its fields one after the other. */
  lemma Section(b: Tagged)
    requires InRange(b)
    ensures EncodeFields(b) == FieldsFrom(b, 0)
  {
    hide Signed, EncodeVarlen, EncodeSigned, EncodeUuid, FieldsFrom;
    var c := Fields(b);
    Assoc(EncodeVarlen(3), EncodeVarlen(|b.tag|), b.tag);
    assert EncodeFields(b)
        == c[0] + c[1] + c[2] + c[3] + c[4] + c[5] + c[6] + c[7] + c[8] + c[9] + c[10] + c[11];
    Twelve(c);
    RightNested(b);
  }

  /** Whatever body is written is what a reader gets back, the size it announces included. */
  lemma BodyTrip(b: Tagged)
    requires InRange(b)
    ensures ReadBody(EncodeBody(b)) == Ok(b)
  {
    hide EncodeVarlen, ReadUnsigned, EncodeFields, ReadFields, BodySize, Partly, FieldsFrom;
    var fields, size := EncodeFields(b), BodySize(b);
    BodyFits(b);
    BodyLength(b);
    Four(EncodeVarlen(1), EncodeVarlen(size), EncodeVarlen(0), fields);
    UnsignedTrip(1, 255, EncodeVarlen(size) + (EncodeVarlen(0) + fields));
    UnsignedTrip(size, U64 - 1, EncodeVarlen(0) + fields);
    UnsignedTrip(0, 255, fields);
    Section(b);
    Start(b);
    FieldsTrip(b, 0, None);
  }

  lemma Start(b: Tagged)
    ensures Missing(0) == REQUIRED && Partly(b, 0) == Blank()
  {
  }

  // ----- rewriting ---------------------------------------------------------------------

  /** static_cast from int64_t to uint64_t and back. */
  function ToUnsigned(v: int): nat {
    v % U64
  }

  function ToSigned(v: nat): int {
    if v % U64 >= U64 / 2 then v % U64 - U64 else v % U64
  }

  lemma SignedFits(v: nat)
    ensures Signed(ToSigned(v), 64)
  {
    hide Pow2;
    Powers();
    Doubling(63);
  }

  lemma SignedWithin(s: seq<Byte>)
    requires ReadSigned(s).Some?
    ensures Signed(ReadSigned(s).value.0, 64)
  {
    hide DecodeVarlen, Pow2, UnZigZag;
    DecodeWithin(s, 64);
    UnZigZagSigned(DecodeVarlen(s, Pow2(64) - 1).value.0, 64);
  }

  lemma UnsignedWithin(s: seq<Byte>, max: nat)
    requires ReadUnsigned(s, max).Some? && max in {U32 - 1, U64 - 1}
    ensures ReadUnsigned(s, max).value.0 <= max
  {
    hide DecodeVarlen, Pow2;
    Powers();
    DecodeWithin(s, if max == U64 - 1 then 64 else 32);
  }

  lemma {:induction false} UuidSizes(s: seq<Byte>, n: nat)
    requires ReadUuid(s, n).Some?
    ensures |ReadUuid(s, n).value.0| == n
    decreases n
  {
    hide DecodeVarlen;
    if n > 0 { UuidSizes(DecodeVarlen(s, 255).value.1, n - 1); }
  }

  lemma FieldInRange(id: nat, s: seq<Byte>, b: Tagged)
    requires InRange(b) && ReadField(id, s, b).Some?
    ensures InRange(ReadField(id, s, b).value.0)
  {
    hide ReadUnsigned, ReadSigned, ReadUuid, Signed, DecodeVarlen;
    match id
    case 1 => UuidSizes(s, 16);
    case 2 => SignedWithin(s);
    case 4 => SignedWithin(s);
    case 5 => SignedWithin(s);
    case 6 => UnsignedWithin(s, U64 - 1);
    case 7 => UnsignedWithin(s, U64 - 1);
    case 8 => UnsignedWithin(s, U64 - 1);
    case 9 => UnsignedWithin(s, U32 - 1);
    case 10 => UnsignedWithin(s, U32 - 1);
    case 11 => UnsignedWithin(s, U64 - 1);
    case _ =>
  }

  lemma {:induction false} FieldsInRange(s: seq<Byte>, r: Reading)
    requires InRange(r.b) && ReadFields(s, r).Ok?
    ensures InRange(ReadFields(s, r).value)
    decreases |s|
  {
    hide InRange, ReadField, DecodeVarlen;
    var id := ReadUnsigned(s, 255);
    if id.Some? {
      FieldInRange(id.value.0, id.value.1, r.b);
      Shrinks(s, 255);
      var f := ReadField(id.value.0, id.value.1, r.b).value;
      FieldsInRange(f.1, Reading(Some(id.value.0), r.missing - {id.value.0}, f.0));
    }
  }

  /** Whatever is accepted fits the members of the body. */
  lemma ReadInRange(s: seq<Byte>)
    requires ReadBody(s).Ok?
    ensures InRange(ReadBody(s).value)
  {
    hide ReadFields, ReadUnsigned;
    BlankInRange();
    var fields := ReadUnsigned(ReadUnsigned(ReadUnsigned(s, 255).value.1, U64 - 1).value.1, 255).value.1;
    FieldsInRange(fields, Reading(None, REQUIRED, Blank()));
  }

  lemma BlankInRange()
    ensures InRange(Blank())
  {
  }

  /** The dependency is on an earlier transaction, and the transaction is at least as long as the event. */
  predicate Rewritable(d: Tagged, originalSize: nat) {
    ToUnsigned(d.lastCommitted) < ToUnsigned(d.sequence) && originalSize <= d.txLength
  }

  /** The body with the numbers that FixedNumbers describes. */
  function Renumbered(last: nat, d: Tagged): Tagged {
    var r := FixNumbers(last, ToUnsigned(d.sequence), ToUnsigned(d.lastCommitted));
    if r.Err? then d else d.(sequence := ToSigned(r.value.0), lastCommitted := ToSigned(r.value.1))
  }

  lemma RenumberedInRange(last: nat, d: Tagged)
    requires InRange(d)
    ensures InRange(Renumbered(last, d))
  {
    hide Signed, ToSigned;
    var r := FixNumbers(last, ToUnsigned(d.sequence), ToUnsigned(d.lastCommitted));
    if r.Ok? {
      SignedFits(r.value.0);
      SignedFits(r.value.1);
    }
  }

  /**
   * rewrite_gtid_tagged_log_internal on the body: the new body reads as the old one but for the fixed numbers and the
   * transaction length, which leaves as much behind the event as before.
   */
  method RewriteBody(last: nat, body: seq<Byte>, originalSize: nat) returns (r: Result<seq<Byte>>)
    requires ReadBody(body).Ok? && originalSize <= ReadBody(body).value.txLength ==>
      ReadBody(body).value.txLength + 1100 < U64
    ensures r.Ok? <==> ReadBody(body).Ok? && Rewritable(ReadBody(body).value, originalSize)
    ensures r.Ok? ==>
      var d := ReadBody(body).value;
      var rest := d.txLength - originalSize;
      ReadBody(r.value) == Ok(Renumbered(last, d).(txLength := rest + HEADER_AND_FOOTER + |r.value|))
  {
    hide ReadBody, InRange, RestOfBody, BodySize, ToSigned, EncodeBody;
    var read := DecodeBody(body);
    if read.Err? { return Err; }
    ReadInRange(body);
    var d := read.value;
    RenumberedInRange(last, d);
    if d.txLength < originalSize { return Err; }
    var fixed := FixSequenceNumberAndLastCommitted(last, ToUnsigned(d.sequence), ToUnsigned(d.lastCommitted));
    if fixed.Err? { return Err; }
    var b := d.(sequence := ToSigned(fixed.value.0), lastCommitted := ToSigned(fixed.value.1));
    SmallTag(b);
    var size := RewrittenEventSize(b, originalSize, d.txLength);
    var b' := b.(txLength := size.value + (d.txLength - originalSize));
    LengthInRange(b, b'.txLength);
    BodyTrip(b');
    r := Ok(EncodeBody(b'));
  }

  lemma LengthInRange(b: Tagged, n: nat)
    requires InRange(b) && n < U64
    ensures InRange(b.(txLength := n))
  {
  }
}
