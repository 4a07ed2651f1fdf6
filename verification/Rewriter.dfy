/**
 * events::rewriter and the body of GTID_TAGGED_LOG: renumbering of transactions, and the two nested
 * sizes that contain themselves.
 */
module Rewriter {
  import opened Prelude
  import opened VarlenInt

  // ----- sequence numbers --------------------------------------------------------------

  /** fix_sequence_number_and_last_committed, in 64 bits. */
  function FixNumbers(last: nat, sequence: nat, committed: nat): Result<(nat, nat)> {
    if committed >= sequence then Err
    else
      var delta := sequence - committed;
      var s := (last + 1) % U64;
      Ok((s, if s > delta then s - delta else if s == 1 then 0 else 1))
  }

  method FixSequenceNumberAndLastCommitted(last: nat, sequence: nat, committed: nat) returns (r: Result<(nat, nat)>)
    ensures r == FixNumbers(last, sequence, committed)
  {
    if committed >= sequence {
      return Err;
    }
    var delta := sequence - committed;
    var newSequence := (last + 1) % U64;
    var newCommitted := newSequence;
    if newCommitted > delta {
      newCommitted := newCommitted - delta;
    } else {
      newCommitted := if newSequence == 1 then 0 else 1;
    }
    r := Ok((newSequence, newCommitted));
  }

  /**
   * The rewritten transaction follows the last one and depends on an earlier one, at most as far back as
   * before; only the first transaction of a file depends on nothing.  This holds unless the last
   * sequence number is the largest of all.
   */
  lemma FixedNumbers(last: nat, sequence: nat, committed: nat)
    requires last < U64 && sequence < U64
    ensures FixNumbers(last, sequence, committed).Ok? <==> committed < sequence
    ensures committed < sequence ==>
      var (s, c) := FixNumbers(last, sequence, committed).value;
      && (c < s <==> last + 1 < U64)
      && (last + 1 < U64 ==>
            && s == last + 1 && s - c <= sequence - committed
            && (s - c == sequence - committed <==> s > sequence - committed || (s == 1 && sequence - committed == 1)
                                                   || (s > 1 && s - 1 == sequence - committed))
            && (c == 0 <==> s == 1)
            && (c == 1 <==> s > 1 && s - 1 <= sequence - committed))
  {
  }

  // ----- sizes that contain themselves -------------------------------------------------

  lemma VarlenMonotone(a: nat, b: nat)
    requires a <= b
    ensures VarlenSize(a) <= VarlenSize(b)
  {
    WidthMonotone(a, b);
  }

  lemma {:induction false} WidthMonotone(a: nat, b: nat)
    requires a <= b
    ensures BitWidth(a) <= BitWidth(b)
  {
    BitWidthIff(a, BitWidth(b));
    BitWidthIff(b, BitWidth(b));
  }

  lemma CapacityGap(n: nat)
    requires 1 <= n < 9
    ensures Capacity(n) + 127 <= Capacity(n + 1)
  {
    hide Pow2;
    Powers();
    Pow2Add(7 * n, 7);
    assert Pow2(7) == 128 by { Doubling(7); }
    assert Pow2(7 * n) >= 128 by { Pow2Add(7, 7 * (n - 1)); }
    if n == 8 {
      Pow2Add(56, 8);
    }
  }

  /** Within 127 of each other, two values differ by at most one in size. */
  lemma VarlenWindow(a: nat, b: nat)
    requires a <= b <= a + 127 && b < U64
    ensures VarlenSize(a) <= VarlenSize(b) <= VarlenSize(a) + 1
  {
    hide VarlenSize, Capacity;
    VarlenMonotone(a, b);
    VarlenSizeIsLeast(a);
    VarlenSizeIsLeast(b);
    var n := VarlenSize(a);
    if n < 9 {
      CapacityGap(n);
      assert b < Capacity(n + 1);
    }
  }

  /** The width the total size field has when it is taken to be w bytes wide. */
  function WidthAt(rest: nat, w: nat): nat {
    VarlenSize(rest + w)
  }

  /** The width of the total size field, given everything else in the body. */
  function FieldWidth(rest: nat): nat {
    WidthAt(rest, WidthAt(rest, 1))
  }

  lemma WidthBounds(rest: nat, w: nat)
    requires rest + 10 < U64 && 1 <= w <= 10
    ensures 1 <= WidthAt(rest, 1) <= WidthAt(rest, w) <= WidthAt(rest, 1) + 1 && WidthAt(rest, w) <= 9
  {
    hide VarlenSize;
    VarlenSizeIsLeast(rest + 1);
    VarlenSizeIsLeast(rest + w);
    VarlenWindow(rest + 1, rest + w);
  }

  /** The width is consistent with the size it belongs to, and it is the least such width. */
  lemma FieldWidthFits(rest: nat)
    requires rest + 10 < U64
    ensures 1 <= FieldWidth(rest) <= 9 && WidthAt(rest, FieldWidth(rest)) == FieldWidth(rest)
    ensures forall w: nat :: 1 <= w && WidthAt(rest, w) == w ==> FieldWidth(rest) <= w
  {
    hide VarlenSize;
    var a := WidthAt(rest, 1);
    WidthBounds(rest, 1);
    WidthBounds(rest, a);
    var b := WidthAt(rest, a);
    WidthBounds(rest, b);
    VarlenMonotone(rest + a, rest + b);
    forall w: nat | 1 <= w && WidthAt(rest, w) == w ensures b <= w {
      VarlenMonotone(rest + 1, rest + w);
      VarlenMonotone(rest + a, rest + w);
    }
  }

  /** calculate_encoded_size: the loop finds the width in at most two steps. */
  method CalculateEncodedSize(rest: nat) returns (size: nat)
    requires rest + 10 < U64
    ensures size == rest + FieldWidth(rest)
  {
    hide WidthAt;
    FieldWidthFits(rest);
    var width, iteration := 1, 0;
    var newWidth := WidthAt(rest, width);
    while newWidth != width && iteration < 9
      invariant newWidth == WidthAt(rest, width)
      invariant iteration == 0 ==> width == 1
      invariant iteration == 1 ==> width == WidthAt(rest, 1)
      invariant iteration >= 2 ==> width == FieldWidth(rest)
      invariant iteration <= 2
      decreases 9 - iteration
    {
      width := newWidth;
      iteration := iteration + 1;
      newWidth := WidthAt(rest, width);
    }
    assert iteration < 9;
    Least(rest, width);
    size := rest + width;
  }

  lemma Least(rest: nat, w: nat)
    requires rest + 10 < U64 && WidthAt(rest, w) == w && (w == 1 || w == WidthAt(rest, 1) || w == FieldWidth(rest))
    ensures w == FieldWidth(rest)
  {
    hide WidthAt;
  }

  // ----- the body ----------------------------------------------------------------------

  /** The fields of a GTID_TAGGED_LOG body. */
  datatype Tagged = Tagged(flags: Byte, uuid: seq<Byte>, gno: int, tag: seq<Byte>, lastCommitted: int, sequence: int,
                           immediateTime: nat, originalTime: Option<nat>, txLength: nat,
                           immediateVersion: nat, originalVersion: Option<nat>, ticket: Option<nat>)

  const U32: nat := 0x1_0000_0000
  const MAX_TAG: nat := 32

  /** What the members of the body can hold; the largest value of an optional one stands for its absence. */
  predicate InRange(b: Tagged) {
    && |b.uuid| == 16 && |b.tag| <= MAX_TAG
    && Signed(b.gno, 64) && Signed(b.lastCommitted, 64) && Signed(b.sequence, 64)
    && b.immediateTime < U64 && b.txLength < U64 && b.immediateVersion < U32
    && (b.originalTime.Some? ==> b.originalTime.value < U64 - 1)
    && (b.originalVersion.Some? ==> b.originalVersion.value < U32 - 1)
    && (b.ticket.Some? ==> b.ticket.value < U64 - 1)
  }

  function SignedSize(v: int): nat
    requires Signed(v, 64)
  {
    VarlenSize(ZigZag(v, 64))
  }

  function OptionSize(v: Option<nat>): nat {
    if v.None? then 0 else 1 + VarlenSize(v.value)
  }

  function UuidSize(uuid: seq<Byte>): nat {
    if uuid == [] then 0 else VarlenSize(uuid[0]) + UuidSize(uuid[1..])
  }

  /** calculate_tlv_section_size without the value of transaction_length; every field id takes one byte. */
  function OtherFields(b: Tagged): nat
    requires InRange(b)
  {
    1 + VarlenSize(b.flags) + 1 + UuidSize(b.uuid) + 1 + SignedSize(b.gno) + 1 + VarlenSize(|b.tag|) + |b.tag|
    + 1 + SignedSize(b.lastCommitted) + 1 + SignedSize(b.sequence) + 1 + VarlenSize(b.immediateTime)
    + OptionSize(b.originalTime) + 1 + 1 + VarlenSize(b.immediateVersion)
    + OptionSize(b.originalVersion) + OptionSize(b.ticket)
  }

  /** The two one-byte framing fields and the tag-length-value section. */
  function RestOfBody(b: Tagged): nat
    requires InRange(b)
  {
    2 + OtherFields(b) + VarlenSize(b.txLength)
  }

  function BodySize(b: Tagged): nat
    requires InRange(b)
  {
    RestOfBody(b) + FieldWidth(RestOfBody(b))
  }

  const HEADER_AND_FOOTER := 19 + 4

  function EncodeUuid(uuid: seq<Byte>): seq<Byte> {
    if uuid == [] then [] else EncodeVarlen(uuid[0]) + EncodeUuid(uuid[1..])
  }

  function EncodeOption(id: nat, v: Option<nat>): seq<Byte>
    requires id < U64 && (v.Some? ==> v.value < U64)
  {
    if v.None? then [] else EncodeVarlen(id) + EncodeVarlen(v.value)
  }

  function EncodeFields(b: Tagged): seq<Byte>
    requires InRange(b)
  {
    EncodeVarlen(0) + EncodeVarlen(b.flags) + (EncodeVarlen(1) + EncodeUuid(b.uuid))
    + (EncodeVarlen(2) + EncodeSigned(b.gno, 64)) + (EncodeVarlen(3) + EncodeVarlen(|b.tag|) + b.tag)
    + (EncodeVarlen(4) + EncodeSigned(b.lastCommitted, 64)) + (EncodeVarlen(5) + EncodeSigned(b.sequence, 64))
    + (EncodeVarlen(6) + EncodeVarlen(b.immediateTime)) + EncodeOption(7, b.originalTime)
    + (EncodeVarlen(8) + EncodeVarlen(b.txLength)) + (EncodeVarlen(9) + EncodeVarlen(b.immediateVersion))
    + EncodeOption(10, b.originalVersion) + EncodeOption(11, b.ticket)
  }

  /** encode_to. */
  function EncodeBody(b: Tagged): seq<Byte>
    requires InRange(b)
  {
    BodyFits(b);
    EncodeVarlen(1) + EncodeVarlen(BodySize(b)) + EncodeVarlen(0) + EncodeFields(b)
  }

  lemma EncodedLength(v: nat)
    requires v < U64
    ensures |EncodeVarlen(v)| == VarlenSize(v)
  {
    VarlenRoundTrip(v, v, []);
  }

  lemma SmallId(v: nat)
    requires v < 128
    ensures |EncodeVarlen(v)| == 1 == VarlenSize(v)
  {
    hide VarlenSize;
    EncodedLength(v);
    VarlenSizeIsLeast(v);
    assert Capacity(1) == 128;
  }

  lemma {:induction false} UuidLength(uuid: seq<Byte>)
    ensures |EncodeUuid(uuid)| == UuidSize(uuid) <= 9 * |uuid|
  {
    hide VarlenSize;
    if uuid != [] {
      EncodedLength(uuid[0]);
      VarlenSizeIsLeast(uuid[0]);
      UuidLength(uuid[1..]);
    }
  }

  lemma SignedLength(v: int)
    requires Signed(v, 64)
    ensures |EncodeSigned(v, 64)| == SignedSize(v) <= 9
  {
    hide VarlenSize, ZigZag;
    WidthFits(v, 64);
    EncodedLength(ZigZag(v, 64));
    VarlenSizeIsLeast(ZigZag(v, 64));
  }

  lemma OptionLength(id: nat, v: Option<nat>)
    requires id < 128 && (v.Some? ==> v.value < U64)
    ensures |EncodeOption(id, v)| == OptionSize(v) <= 10
  {
    hide VarlenSize;
    SmallId(id);
    if v.Some? {
      EncodedLength(v.value);
      VarlenSizeIsLeast(v.value);
    }
  }

  lemma PlainLength(v: nat)
    requires v < U64
    ensures |EncodeVarlen(v)| == VarlenSize(v) <= 9
  {
    hide VarlenSize;
    EncodedLength(v);
    VarlenSizeIsLeast(v);
  }

  /** The section is as long as calculate_tlv_section_size says. */
  lemma FieldsLength(b: Tagged)
    requires InRange(b)
    ensures |EncodeFields(b)| == OtherFields(b) + VarlenSize(b.txLength)
    ensures OtherFields(b) < 400 + |b.tag|
  {
    hide VarlenSize, EncodeVarlen, EncodeSigned, EncodeUuid, UuidSize, EncodeOption, OptionSize, SignedSize, Signed;
    forall id | 0 <= id < 12 ensures |EncodeVarlen(id)| == 1 { SmallId(id); }
    PlainLength(b.flags);
    UuidLength(b.uuid);
    SignedLength(b.gno);
    PlainLength(|b.tag|);
    SignedLength(b.lastCommitted);
    SignedLength(b.sequence);
    PlainLength(b.immediateTime);
    OptionLength(7, b.originalTime);
    PlainLength(b.txLength);
    PlainLength(b.immediateVersion);
    OptionLength(10, b.originalVersion);
    OptionLength(11, b.ticket);
  }

  lemma BodyFits(b: Tagged)
    requires InRange(b)
    ensures BodySize(b) < 500 + |b.tag| < U64
  {
    hide VarlenSize, OtherFields, FieldWidth;
    FieldsLength(b);
    PlainLength(b.txLength);
    FieldWidthRange(RestOfBody(b));
  }

  lemma FieldWidthRange(rest: nat)
    requires rest + 10 < U64
    ensures 1 <= FieldWidth(rest) <= 9
  {
    FieldWidthFits(rest);
  }

  /** The body is as long as the size field it carries says. */
  lemma BodyLength(b: Tagged)
    requires InRange(b)
    ensures |EncodeBody(b)| == BodySize(b)
  {
    hide VarlenSize, EncodeVarlen, EncodeFields, OtherFields, FieldWidth;
    BodyFits(b);
    FieldsLength(b);
    PlainLength(b.txLength);
    FieldWidthFits(RestOfBody(b));
    SmallId(1);
    SmallId(0);
    EncodedLength(BodySize(b));
    assert WidthAt(RestOfBody(b), FieldWidth(RestOfBody(b))) == VarlenSize(BodySize(b));
  }

  // ----- the size of the rewritten event -----------------------------------------------

  /** The event size when transaction_length takes n bytes. */
  function SizeFor(b: Tagged, n: nat): nat
    requires InRange(b)
  {
    var rest := 2 + OtherFields(b) + n;
    HEADER_AND_FOOTER + rest + FieldWidth(rest)
  }

  /** There is room in 64 bits for the transaction length, whatever size the event gets. */
  predicate RoomForLength(b: Tagged, tail: nat, size: nat)
    requires InRange(b)
  {
    tail + size < U64 && tail + 1000 + |b.tag| < U64
  }

  /** event_size_calculator: the size of the event if its size is taken to be the candidate. */
  function Recalculated(b: Tagged, tail: nat, candidate: nat): nat
    requires InRange(b)
  {
    SizeFor(b, VarlenSize(candidate + tail))
  }

  lemma RecalculatedIs(b: Tagged, tail: nat, candidate: nat)
    requires InRange(b) && candidate + tail < U64
    ensures Recalculated(b, tail, candidate) == HEADER_AND_FOOTER + BodySize(b.(txLength := candidate + tail))
  {
    hide Signed, SignedSize, UuidSize, OptionSize, VarlenSize, FieldWidth;
  }

  lemma SizesGrow(b: Tagged, n: nat, m: nat)
    requires InRange(b) && 1 <= n <= m <= 9
    ensures SizeFor(b, n) + (m - n) <= SizeFor(b, m) <= SizeFor(b, 1) + 16 && SizeFor(b, n) < 600 + |b.tag|
  {
    hide OtherFields, FieldWidth;
    SmallTag(b);
    SumsGrow(2 + OtherFields(b), n, m);
  }

  lemma SmallTag(b: Tagged)
    requires InRange(b)
    ensures OtherFields(b) < 400 + |b.tag| && |b.tag| <= MAX_TAG
  {
    FieldsLength(b);
  }

  lemma SumsGrow(r: nat, n: nat, m: nat)
    requires r + 30 < U64 && 1 <= n <= m <= 9
    ensures r + n + FieldWidth(r + n) + (m - n) <= r + m + FieldWidth(r + m) <= r + 1 + FieldWidth(r + 1) + 16
    ensures r + n + FieldWidth(r + n) <= r + 18
  {
    hide FieldWidth;
    FieldWidthRange(r + 1);
    FieldWidthRange(r + n);
    FieldWidthRange(r + m);
    FieldWidthGrows(r + n, r + m);
  }

  lemma FieldWidthGrows(a: nat, b: nat)
    requires a <= b
    ensures FieldWidth(a) <= FieldWidth(b)
  {
    hide VarlenSize;
    VarlenMonotone(a + 1, b + 1);
    VarlenMonotone(a + WidthAt(a, 1), b + WidthAt(b, 1));
  }

  /** Whatever candidate comes first, recalculating leads to one of the nine sizes. */
  lemma RecalculatedBounds(b: Tagged, tail: nat, candidate: nat)
    requires InRange(b) && RoomForLength(b, tail, candidate)
    ensures 1 <= VarlenSize(candidate + tail) <= 9
    ensures SizeFor(b, 1) <= Recalculated(b, tail, candidate) <= SizeFor(b, 1) + 16
    ensures RoomForLength(b, tail, Recalculated(b, tail, candidate))
  {
    hide VarlenSize, SizeFor;
    VarlenSizeIsLeast(candidate + tail);
    SizesGrow(b, 1, VarlenSize(candidate + tail));
    SizesGrow(b, VarlenSize(candidate + tail), 9);
  }

  /** From any candidate the fourth recalculation changes nothing any more. */
  lemma Stabilizes(b: Tagged, tail: nat, s0: nat)
    requires InRange(b) && RoomForLength(b, tail, s0)
    ensures var s1 := Recalculated(b, tail, s0);
      var s2 := Recalculated(b, tail, s1);
      var s3 := Recalculated(b, tail, s2);
      && RoomForLength(b, tail, s1) && RoomForLength(b, tail, s2) && RoomForLength(b, tail, s3)
      && Recalculated(b, tail, s3) == s3
  {
    hide VarlenSize, SizeFor;
    var s1 := Recalculated(b, tail, s0);
    RecalculatedBounds(b, tail, s0);
    var s2 := Recalculated(b, tail, s1);
    RecalculatedBounds(b, tail, s1);
    var s3 := Recalculated(b, tail, s2);
    RecalculatedBounds(b, tail, s2);
    RecalculatedBounds(b, tail, s3);
    var low := SizeFor(b, 1);
    var n1, n2, n3 := VarlenSize(s1 + tail), VarlenSize(s2 + tail), VarlenSize(s3 + tail);
    TwoSizes(low + tail, s1 + tail, s2 + tail);
    TwoSizes(low + tail, s2 + tail, s3 + tail);
    if n1 <= n2 { SizesGrow(b, n1, n2); } else { SizesGrow(b, n2, n1); }
  }

  /** Close to each other, values have at most two sizes, in order. */
  lemma TwoSizes(low: nat, a: nat, b: nat)
    requires low <= a <= low + 16 && low <= b <= low + 16 && a < U64 && b < U64
    ensures VarlenSize(low) <= VarlenSize(a) <= VarlenSize(low) + 1
    ensures VarlenSize(low) <= VarlenSize(b) <= VarlenSize(low) + 1
    ensures a <= b ==> VarlenSize(a) <= VarlenSize(b)
    ensures b <= a ==> VarlenSize(b) <= VarlenSize(a)
  {
    hide VarlenSize;
    VarlenWindow(low, a);
    VarlenWindow(low, b);
    if a <= b { VarlenMonotone(a, b); } else { VarlenMonotone(b, a); }
  }

  ghost function Nth(b: Tagged, tail: nat, s0: nat, i: nat): nat
    requires InRange(b)
  {
    if i == 0 then s0 else Recalculated(b, tail, Nth(b, tail, s0, i - 1))
  }

  lemma NthStable(b: Tagged, tail: nat, s0: nat)
    requires InRange(b) && RoomForLength(b, tail, s0)
    ensures Recalculated(b, tail, Nth(b, tail, s0, 3)) == Nth(b, tail, s0, 3)
  {
    hide Recalculated;
    Stabilizes(b, tail, s0);
    assert Nth(b, tail, s0, 1) == Recalculated(b, tail, s0);
    assert Nth(b, tail, s0, 2) == Recalculated(b, tail, Nth(b, tail, s0, 1));
  }

  /** With the transaction length that goes with this event size, the encoded event has this size. */
  ghost predicate SizeAgrees(b: Tagged, tail: nat, size: nat)
    requires InRange(b)
  {
    tail + size < U64 && size == HEADER_AND_FOOTER + |EncodeBody(b.(txLength := size + tail))|
  }

  /** The loop of rewrite_gtid_tagged_log_internal: it ends with a size that is its own recalculation. */
  method RewrittenEventSize(b: Tagged, originalSize: nat, originalLength: nat) returns (r: Result<nat>)
    requires InRange(b)
    requires originalSize <= originalLength ==> RoomForLength(b, originalLength - originalSize, originalSize)
    ensures r.Ok? <==> originalSize <= originalLength
    ensures r.Ok? ==> SizeAgrees(b, originalLength - originalSize, r.value)
  {
    hide VarlenSize, SizeFor, BodySize, RestOfBody, EncodeBody;
    if originalLength < originalSize {
      return Err;
    }
    var tail := originalLength - originalSize;
    var candidate, iteration := originalSize, 0;
    var recalculated := Recalculated(b, tail, candidate);
    NthStable(b, tail, originalSize);
    while recalculated != candidate && iteration < 9
      invariant iteration <= 3 && candidate == Nth(b, tail, originalSize, iteration)
      invariant iteration == 3 ==> recalculated == candidate
      invariant recalculated == Recalculated(b, tail, candidate) && RoomForLength(b, tail, candidate)
      decreases 9 - iteration
    {
      RecalculatedBounds(b, tail, candidate);
      candidate := recalculated;
      iteration := iteration + 1;
      recalculated := Recalculated(b, tail, candidate);
    }
    assert iteration < 9;
    RecalculatedIs(b, tail, candidate);
    BodyLength(b.(txLength := candidate + tail));
    r := Ok(recalculated);
  }
}
