/** classic_protocol_codec_frame.h and the text resultset row of classic_protocol_codec_message.h. */
module RowsAndFrames {
  import opened Prelude
  import opened VarlenInt
  import opened Wire

  type Row = seq<Option<seq<Byte>>>

  // ----- rows --------------------------------------------------------------------------

  function FieldItem(f: Option<seq<Byte>>): Item {
    if f.Some? then VarStr(f.value) else Null
  }

  /** accumulate_fields of a row. */
  function RowItems(row: Row): seq<Item> {
    if row == [] then [] else [FieldItem(row[0])] + RowItems(row[1..])
  }

  lemma VarMoves(s: seq<Byte>)
    ensures TakeVar(s).Some? ==> |TakeVar(s).value.1| < |s|
  {
  }

  lemma VarStrMoves(s: seq<Byte>)
    ensures TakeVarStr(s).Some? ==> |TakeVarStr(s).value.1| < |s|
  {
    VarMoves(s);
  }

  /** One field: a NULL marker or a string with its length. */
  function TakeField(s: seq<Byte>): (r: Parsed<Option<seq<Byte>>>)
    requires s != []
    ensures r.Some? ==> |r.value.1| < |s|
  {
    if s[0] == 0xfb then Some((None, s[1..]))
    else
      VarStrMoves(s);
      var r := TakeVarStr(s);
      if r.None? then None else Some((Some(r.value.0), r.value.1))
  }

  function DecodeRow(s: seq<Byte>): Option<Row>
    decreases |s|
  {
    if s == [] then Some([])
    else
      var f := TakeField(s);
      if f.None? then None
      else
        var rest := DecodeRow(f.value.1);
        if rest.None? then None else Some([f.value.0] + rest.value)
  }

  /** decode() of a row: the loop over the buffer. */
  method DecodeRowFields(buffer: seq<Byte>) returns (r: Option<Row>)
    ensures r == DecodeRow(buffer)
  {
    var rest, fields: Row := buffer, [];
    assert DecodeRow(buffer).Some? ==> fields + DecodeRow(buffer).value == DecodeRow(buffer).value;
    while rest != []
      invariant DecodeRow(buffer) ==
                var more := DecodeRow(rest);
                if more.None? then None else Some(fields + more.value)
      decreases |rest|
    {
      var f := TakeField(rest);
      if f.None? {
        return None;
      }
      ghost var more := DecodeRow(f.value.1);
      assert more.Some? ==> fields + ([f.value.0] + more.value) == fields + [f.value.0] + more.value;
      fields, rest := fields + [f.value.0], f.value.1;
    }
    assert fields + [] == fields;
    r := Some(fields);
  }

  predicate Sendable(row: Row) {
    forall i :: 0 <= i < |row| && row[i].Some? ==> |row[i].value| < S64
  }

  lemma VarFirst(v: nat)
    ensures VarBytes(v) != [] && VarBytes(v)[0] != 0xfb && (VarBytes(v)[0] == 0xfe <==> v >= 0x100_0000)
  {
    OneFixed(v);
  }

  lemma FieldTrip(f: Option<seq<Byte>>, rest: seq<Byte>)
    requires f.Some? ==> |f.value| < S64
    ensures Bytes(FieldItem(f)) != [] && TakeField(Bytes(FieldItem(f)) + rest) == Some((f, rest))
  {
    hide VarBytes, TakeVarStr;
    if f.Some? {
      VarFirst(|f.value|);
      VarStrTrip(f.value, rest);
      assert (Bytes(VarStr(f.value)) + rest)[0] == VarBytes(|f.value|)[0];
    } else {
      assert ([0xfb] + rest)[1..] == rest;
    }
  }

  /** Any list of optional strings comes back. */
  lemma {:induction false} RowTrip(row: Row)
    requires Sendable(row)
    ensures DecodeRow(Encode(RowItems(row))) == Some(row)
  {
    hide Bytes, TakeField;
    if row != [] {
      var f := row[0];
      assert Sendable(row[1..]);
      RowTrip(row[1..]);
      var rest := Encode(RowItems(row[1..]));
      FieldTrip(f, rest);
      assert RowItems(row)[1..] == RowItems(row[1..]);
      assert row == [f] + row[1..];
    }
  }

  // ----- frames ------------------------------------------------------------------------

  /** A frame: three bytes of payload size, the sequence number, the payload. */
  function FrameItems(payload: seq<Item>, seqId: nat): seq<Item> {
    [Fixed(3, TotalSize(payload)), Fixed(1, seqId)] + payload
  }

  /** The header of a frame, and its payload once all of it has arrived. */
  function TakeFrame(s: seq<Byte>): Parsed<(nat, seq<Byte>)> {
    var size := TakeFixed(s, 3);
    if size.None? then None
    else
      var id := TakeFixed(size.value.1, 1);
      if id.None? then None
      else if |s| < 4 + size.value.0 then None
      else Some(((id.value.0, id.value.1[..size.value.0]), id.value.1[size.value.0..]))
  }

  lemma FrameBytes(payload: seq<Item>, seqId: nat)
    ensures Encode(FrameItems(payload, seqId))
         == FixedBytes(TotalSize(payload), 3) + FixedBytes(seqId, 1) + Encode(payload)
    ensures |Encode(FrameItems(payload, seqId))| == 4 + TotalSize(payload)
  {
    var a, b := Fixed(3, TotalSize(payload)), Fixed(1, seqId);
    EncodeConcat([a, b], payload);
    assert [a, b][1..] == [b];
    assert Encode([b]) == Bytes(b) + Encode([]);
    assert Encode([a, b]) == Bytes(a) + Bytes(b);
    SizeIsExact(payload);
  }

  /** The length in the header is the number of bytes that follow, exactly when it fits in three bytes. */
  lemma HeaderLength(payload: seq<Item>, seqId: nat)
    ensures var frame := Encode(FrameItems(payload, seqId));
      |frame| >= 4 && (FromLittle(frame[..3]) == |frame| - 4 <==> TotalSize(payload) < 0x100_0000)
  {
    hide Encode, FrameItems;
    FrameBytes(payload, seqId);
    Pow256Values();
    var n, frame := TotalSize(payload), Encode(FrameItems(payload, seqId));
    FixedTrip(n, 3, []);
    assert frame[..3] == FixedBytes(n, 3);
    assert FixedBytes(n, 3) + [] == FixedBytes(n, 3) && FixedBytes(n, 3)[..3] == FixedBytes(n, 3);
  }

  /** A frame and whatever follows it is read back: the same number, the same payload, the same rest. */
  lemma FrameTrip(payload: seq<Item>, seqId: Byte, rest: seq<Byte>)
    requires TotalSize(payload) < 0x100_0000
    ensures TakeFrame(Encode(FrameItems(payload, seqId)) + rest) == Some(((seqId, Encode(payload)), rest))
  {
    hide Encode, FrameItems, FixedBytes;
    FrameBytes(payload, seqId);
    SizeIsExact(payload);
    Pow256Values();
    var n, p := TotalSize(payload), Encode(payload);
    var s := Encode(FrameItems(payload, seqId)) + rest;
    var a, b := FixedBytes(n, 3), FixedBytes(seqId, 1);
    Small(n, 3);
    Small(seqId, 1);
    FixedTrip(n, 3, b + (p + rest));
    FixedTrip(seqId, 1, p + rest);
    assert s == a + (b + (p + rest));
    assert (p + rest)[..n] == p && (p + rest)[n..] == rest;
  }

  // ----- rows in frames ----------------------------------------------------------------

  const MAX_PAYLOAD_SIZE: nat := 16 * 1024 * 1024

  /** async_write_mysql_frame refuses larger frames. */
  predicate MayBeSent(frame: seq<Byte>) {
    |frame| < MAX_PAYLOAD_SIZE
  }

  /** The largest payload that is sent has 16777211 bytes. */
  lemma SentIff(payload: seq<Item>, seqId: nat)
    ensures MayBeSent(Encode(FrameItems(payload, seqId))) <==> TotalSize(payload) <= 16_777_211
  {
    hide TotalSize, Encode;
    SizeIsExact(FrameItems(payload, seqId));
    FrameSize(payload, seqId);
  }

  lemma FrameSize(payload: seq<Item>, seqId: nat)
    ensures TotalSize(FrameItems(payload, seqId)) == 4 + TotalSize(payload)
  {
    var items := FrameItems(payload, seqId);
    assert items[1..] == [Fixed(1, seqId)] + payload && items[1..][1..] == payload;
  }

  /** A row that may be sent does not begin with the byte of an end-of-result packet. */
  lemma RowIsNotEof(row: Row, seqId: nat)
    requires row != [] && MayBeSent(Encode(FrameItems(RowItems(row), seqId)))
    ensures var frame := Encode(FrameItems(RowItems(row), seqId)); |frame| > 4 && frame[4] != 0xfe
  {
    hide Bytes, FrameItems, TotalSize;
    var items := RowItems(row);
    FrameBytes(items, seqId);
    SizeIsExact(items);
    FirstOfRow(row);
    var frame := Encode(FrameItems(items, seqId));
    assert frame[4..] == Encode(items) && frame[4] == Encode(items)[0];
  }

  /** A row begins with 0xfe exactly when its first field is longer than any frame. */
  lemma FirstOfRow(row: Row)
    requires row != []
    ensures var s := Encode(RowItems(row));
      s != [] && (s[0] == 0xfe <==> row[0].Some? && |row[0].value| >= 0x100_0000)
      && (row[0].Some? ==> |s| >= |row[0].value|)
  {
    hide VarBytes;
    var first := Bytes(FieldItem(row[0]));
    if row[0].Some? {
      VarFirst(|row[0].value|);
      assert first[0] == VarBytes(|row[0].value|)[0];
    }
    assert Encode(RowItems(row)) == first + Encode(RowItems(row)[1..]);
  }

  /** A whole row through a frame. */
  lemma RowFrameTrip(row: Row, seqId: Byte, rest: seq<Byte>)
    requires Sendable(row) && TotalSize(RowItems(row)) < 0x100_0000
    ensures var f := TakeFrame(Encode(FrameItems(RowItems(row), seqId)) + rest);
      f.Some? && f.value.1 == rest && f.value.0.0 == seqId && DecodeRow(f.value.0.1) == Some(row)
  {
    FrameTrip(RowItems(row), seqId, rest);
    RowTrip(row);
  }
}
