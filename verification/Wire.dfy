/**
 * classic_protocol_codec_base.h and classic_protocol_codec_wire.h: the items messages are made of.
 * A message is one walk over its items; the size accumulator and the buffer accumulator both follow it.
 */
module Wire {
  import opened Prelude
  import opened VarlenInt

  const S64: nat := 0x8000_0000_0000_0000

  datatype Item =
    | Fixed(n: nat, v: int)      // FixedInt<n>
    | Var(i: int)                // VarInt, a signed 64-bit value
    | Str(s: seq<Byte>)          // String
    | VarStr(s: seq<Byte>)       // VarString
    | NulStr(s: seq<Byte>)       // NulTermString
    | Null

  function FixedBytes(v: int, n: nat): (b: seq<Byte>)
    ensures |b| == n
  {
    Little(v % Pow256(n), n)
  }

  function VarBytes(v: int): seq<Byte> {
    if v < 251 then FixedBytes(v, 1)
    else if v < 0x1_0000 then [0xfc] + FixedBytes(v, 2)
    else if v < 0x100_0000 then [0xfd] + FixedBytes(v, 3)
    else [0xfe] + FixedBytes(v, 8)
  }

  /** The bytes EncodeBufferAccumulator writes for one item. */
  function Bytes(i: Item): seq<Byte> {
    match i
    case Fixed(n, v) => FixedBytes(v, n)
    case Var(v) => VarBytes(v)
    case Str(s) => s
    case VarStr(s) => VarBytes(|s|) + s
    case NulStr(s) => s + [0]
    case Null => [0xfb]
  }

  function VarWidth(v: int): nat {
    if v < 251 then 1 else if v < 0x1_0000 then 3 else if v < 0x100_0000 then 4 else 9
  }

  /** What EncodeSizeAccumulator adds for one item. */
  function Size(i: Item): nat {
    match i
    case Fixed(n, v) => n
    case Var(v) => VarWidth(v)
    case Str(s) => |s|
    case VarStr(s) => VarWidth(|s|) + |s|
    case NulStr(s) => |s| + 1
    case Null => 1
  }

  function Encode(items: seq<Item>): seq<Byte> {
    if items == [] then [] else Bytes(items[0]) + Encode(items[1..])
  }

  function TotalSize(items: seq<Item>): nat {
    if items == [] then 0 else Size(items[0]) + TotalSize(items[1..])
  }

  /** size() is the number of bytes encode() writes. */
  lemma {:induction false} SizeIsExact(items: seq<Item>)
    ensures |Encode(items)| == TotalSize(items)
  {
    if items != [] { SizeIsExact(items[1..]); }
  }

  lemma {:induction false} EncodeConcat(a: seq<Item>, b: seq<Item>)
    ensures Encode(a + b) == Encode(a) + Encode(b)
  {
    if a == [] {
      assert a + b == b;
    } else {
      assert (a + b)[1..] == a[1..] + b;
      EncodeConcat(a[1..], b);
    }
  }

  /** encode() into a buffer: it fails iff the buffer is too small, and otherwise fills just what size() says. */
  method EncodeTo(items: seq<Item>, buffer: array<Byte>) returns (r: Result<nat>)
    modifies buffer
    ensures r.Ok? <==> TotalSize(items) <= buffer.Length
    ensures r.Ok? ==> r.value == TotalSize(items) && buffer[..r.value] == Encode(items)
    ensures r.Ok? ==> buffer[r.value..] == old(buffer[r.value..])
  {
    var consumed := 0;
    assert items[..0] == [];
    for k := 0 to |items|
      invariant consumed == TotalSize(items[..k]) <= buffer.Length
      invariant buffer[..consumed] == Encode(items[..k])
      invariant buffer[consumed..] == old(buffer[consumed..])
    {
      Snoc(items, k);
      var bytes := Bytes(items[k]);
      if |bytes| > buffer.Length - consumed {
        TotalGrows(items, k + 1);
        return Err;
      }
      Copy(bytes, buffer, consumed);
      consumed := consumed + |bytes|;
    }
    assert items[..|items|] == items;
    r := Ok(consumed);
  }

  method Copy(bytes: seq<Byte>, buffer: array<Byte>, at: nat)
    requires at + |bytes| <= buffer.Length
    modifies buffer
    ensures buffer[..at + |bytes|] == old(buffer[..at]) + bytes
    ensures buffer[at + |bytes|..] == old(buffer[at + |bytes|..])
  {
    for i := 0 to |bytes|
      invariant buffer[..at] == old(buffer[..at]) && buffer[at..at + i] == bytes[..i]
      invariant buffer[at + |bytes|..] == old(buffer[at + |bytes|..])
    {
      buffer[at + i] := bytes[i];
      assert buffer[at..at + i + 1] == buffer[at..at + i] + [bytes[i]];
    }
    assert buffer[..at + |bytes|] == buffer[..at] + buffer[at..at + |bytes|];
  }

  lemma {:induction false} Snoc(items: seq<Item>, k: nat)
    requires k < |items|
    ensures Encode(items[..k + 1]) == Encode(items[..k]) + Bytes(items[k])
    ensures TotalSize(items[..k + 1]) == TotalSize(items[..k]) + |Bytes(items[k])|
  {
    assert items[..k + 1] == items[..k] + [items[k]];
    EncodeConcat(items[..k], [items[k]]);
    assert Encode([items[k]]) == Bytes(items[k]);
    SizeIsExact(items[..k + 1]);
    SizeIsExact(items[..k]);
  }

  lemma TotalGrows(items: seq<Item>, k: nat)
    requires k <= |items|
    ensures TotalSize(items[..k]) <= TotalSize(items)
  {
    assert items == items[..k] + items[k..];
    EncodeConcat(items[..k], items[k..]);
    SizeIsExact(items);
    SizeIsExact(items[..k]);
  }

  // ----- reading -----------------------------------------------------------------------

  /** A step of DecodeBufferAccumulator: the value and what remains, or the sticky error. */
  type Parsed<T> = Option<(T, seq<Byte>)>

  function TakeFixed(s: seq<Byte>, n: nat): Parsed<nat> {
    if |s| < n then None else Some((FromLittle(s[..n]), s[n..]))
  }

  function ToSigned(v: nat): int {
    if v < S64 then v else v - U64
  }

  function TakeVar(s: seq<Byte>): Parsed<int> {
    if s == [] then None
    else if s[0] < 251 then Some((s[0], s[1..]))
    else if s[0] == 0xfc || s[0] == 0xfd || s[0] == 0xfe then
      var r := TakeFixed(s[1..], if s[0] == 0xfc then 2 else if s[0] == 0xfd then 3 else 8);
      if r.None? then None else Some((ToSigned(r.value.0), r.value.1))
    else None
  }

  /** A string of n bytes; the largest length stands for all that remains. */
  function TakeStr(s: seq<Byte>, n: nat): Parsed<seq<Byte>> {
    if n == U64 - 1 then Some((s, []))
    else if |s| < n then None else Some((s[..n], s[n..]))
  }

  function TakeVarStr(s: seq<Byte>): Parsed<seq<Byte>> {
    var n := TakeVar(s);
    if n.None? then None else TakeStr(n.value.1, n.value.0 % U64)
  }

  function FindNul(s: seq<Byte>): (k: nat)
    ensures k <= |s| && (k < |s| ==> s[k] == 0) && forall i :: 0 <= i < k ==> s[i] != 0
  {
    if s == [] || s[0] == 0 then 0 else 1 + FindNul(s[1..])
  }

  function TakeNulStr(s: seq<Byte>): Parsed<seq<Byte>> {
    var k := FindNul(s);
    if k == |s| then None else Some((s[..k], s[k + 1..]))
  }

  // ----- round trips -------------------------------------------------------------------

  predicate NulFree(s: seq<Byte>) {
    0 !in s
  }

  lemma FixedTrip(v: int, n: nat, rest: seq<Byte>)
    ensures TakeFixed(FixedBytes(v, n) + rest, n) == Some((v % Pow256(n), rest))
  {
    LittleRoundTrip(v % Pow256(n), n);
    ModIs(v % Pow256(n), Pow256(n), 0, v % Pow256(n));
    var b := FixedBytes(v, n);
    assert (b + rest)[..n] == b && (b + rest)[n..] == rest;
  }

  lemma Small(v: nat, n: nat)
    requires v < Pow256(n)
    ensures v % Pow256(n) == v
  {
    ModIs(v, Pow256(n), 0, v);
  }

  lemma VarTrip(v: nat, rest: seq<Byte>)
    requires v < S64
    ensures TakeVar(VarBytes(v) + rest) == Some((v, rest))
  {
    hide Little, FromLittle, FixedBytes, Pow256;
    Pow256Values();
    var b := VarBytes(v);
    if v < 251 {
      Small(v, 1);
      OneFixed(v);
      assert (b + rest)[1..] == rest;
    } else {
      var n := if v < 0x1_0000 then 2 else if v < 0x100_0000 then 3 else 8;
      Small(v, n);
      FixedTrip(v, n, rest);
      assert (b + rest)[1..] == FixedBytes(v, n) + rest;
    }
  }

  lemma OneFixed(v: int)
    ensures FixedBytes(v, 1) == [v % 256]
  {
    Pow256Values();
    OneByte(v % 256);
  }

  /** The wire VarInt is signed: exactly the non-negative values come back. */
  lemma VarTripIff(v: int)
    requires 0 - S64 <= v < S64
    ensures TakeVar(VarBytes(v)) == Some((v, [])) <==> v >= 0
  {
    if v >= 0 {
      VarTrip(v, []);
      assert VarBytes(v) + [] == VarBytes(v);
    } else {
      OneFixed(v);
    }
  }

  lemma StrTrip(s: seq<Byte>, rest: seq<Byte>)
    requires |s| < U64 - 1
    ensures TakeStr(s + rest, |s|) == Some((s, rest))
  {
  }

  lemma VarStrTrip(s: seq<Byte>, rest: seq<Byte>)
    requires |s| < S64
    ensures TakeVarStr(Bytes(VarStr(s)) + rest) == Some((s, rest))
  {
    hide TakeVar, VarBytes;
    VarTrip(|s|, s + rest);
    assert Bytes(VarStr(s)) + rest == VarBytes(|s|) + (s + rest);
    StrTrip(s, rest);
  }

  lemma {:induction false} FindsNul(s: seq<Byte>, rest: seq<Byte>)
    requires NulFree(s)
    ensures FindNul(s + [0] + rest) == |s|
  {
    if s == [] {
      assert ([] + [0] + rest)[0] == 0;
    } else {
      assert (s + [0] + rest)[1..] == s[1..] + [0] + rest;
      FindsNul(s[1..], rest);
    }
  }

  lemma NulStrTrip(s: seq<Byte>, rest: seq<Byte>)
    requires NulFree(s)
    ensures TakeNulStr(Bytes(NulStr(s)) + rest) == Some((s, rest))
  {
    FindsNul(s, rest);
    var t := s + [0] + rest;
    assert t[..|s|] == s && t[|s| + 1..] == rest;
  }

  // ----- the decoding accumulator ------------------------------------------------------

  /** DecodeBufferAccumulator: moves forward on success; the first error sticks and stops every later step. */
  class DecodeAccumulator {
    const buffer: seq<Byte>
    var consumed: nat
    var failed: bool

    ghost predicate Valid()
      reads this
    {
      consumed <= |buffer|
    }

    ghost function Rest(): seq<Byte>
      requires Valid()
      reads this
    {
      buffer[consumed..]
    }

    /** What a step has done, given what it should have read and where it was. */
    ghost predicate Stepped<T>(r: Option<T>, expected: Parsed<T>, wasFailed: bool, was: seq<Byte>)
      reads this
    {
      && Valid()
      && if wasFailed || expected.None? then r == None && failed && Rest() == was
         else r == Some(expected.value.0) && !failed && Rest() == expected.value.1
    }

    constructor (buffer: seq<Byte>)
      ensures Valid() && Rest() == buffer && !failed
    {
      this.buffer, consumed, failed := buffer, 0, false;
    }

    method StepFixed(n: nat) returns (r: Option<nat>)
      requires Valid()
      modifies this
      ensures Stepped(r, TakeFixed(old(Rest()), n), old(failed), old(Rest()))
    {
      if failed {
        return None;
      }
      if n > |buffer| - consumed {
        failed := true;
        return None;
      }
      assert Rest()[..n] == buffer[consumed..consumed + n];
      r := Some(FromLittle(buffer[consumed..consumed + n]));
      consumed := consumed + n;
    }

    method StepVar() returns (r: Option<int>)
      requires Valid()
      modifies this
      ensures Stepped(r, TakeVar(old(Rest())), old(failed), old(Rest()))
    {
      if failed {
        return None;
      }
      var start := consumed;
      ghost var s := Rest();
      if consumed == |buffer| {
        failed := true;
        return None;
      }
      var first := buffer[consumed];
      consumed := consumed + 1;
      if first < 251 {
        return Some(first);
      }
      if first != 0xfc && first != 0xfd && first != 0xfe {
        failed, consumed := true, start;
        return None;
      }
      assert Rest() == s[1..];
      var value := StepFixed(if first == 0xfc then 2 else if first == 0xfd then 3 else 8);
      if value.None? {
        consumed := start;
        return None;
      }
      r := Some(ToSigned(value.value));
    }

    method StepStr(n: nat) returns (r: Option<seq<Byte>>)
      requires Valid()
      modifies this
      ensures Stepped(r, TakeStr(old(Rest()), n), old(failed), old(Rest()))
    {
      if failed {
        return None;
      }
      var size := if n == U64 - 1 then |buffer| - consumed else n;
      if size > |buffer| - consumed {
        failed := true;
        return None;
      }
      assert Rest()[..size] == buffer[consumed..consumed + size];
      assert n == U64 - 1 ==> Rest()[..size] == Rest();
      r := Some(buffer[consumed..consumed + size]);
      consumed := consumed + size;
    }

    method StepVarStr() returns (r: Option<seq<Byte>>)
      requires Valid()
      modifies this
      ensures Stepped(r, TakeVarStr(old(Rest())), old(failed), old(Rest()))
    {
      var start := consumed;
      var size := StepVar();
      if size.None? {
        return None;
      }
      r := StepStr(size.value % U64);
      if r.None? {
        consumed := start;
      }
    }
  }
}
