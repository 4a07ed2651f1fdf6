/** The inserters and extractors themselves: they work in place on a span and move past what they used. */
module ByteSpans {
  import opened Prelude
  import opened VarlenInt

  /** A const_byte_span: what remains of some input. */
  class InputSpan {
    const data: seq<Byte>
    var at: nat

    ghost predicate Valid()
      reads this
    {
      at <= |data|
    }

    ghost function Remainder(): seq<Byte>
      requires Valid()
      reads this
    {
      data[at..]
    }

    constructor (data: seq<Byte>)
      ensures Valid() && Remainder() == data
    {
      this.data, at := data, 0;
    }

    /** extract_fixed_int_from_byte_span_checked. */
    method ExtractFixed(n: nat) returns (r: Option<nat>)
      requires Valid()
      modifies this
      ensures Valid() && (r.Some? <==> n <= |old(Remainder())|)
      ensures r.None? ==> at == old(at)
      ensures r.Some? ==> r.value == FromLittle(old(Remainder())[..n]) && Remainder() == old(Remainder())[n..]
    {
      if n > |data| - at {
        return None;
      }
      var value: nat, i := 0, n;
      while i > 0
        invariant 0 <= i <= n <= |data| - at && at == old(at)
        invariant value == FromLittle(data[at + i..at + n])
      {
        i := i - 1;
        assert data[at + i..at + n][1..] == data[at + i + 1..at + n];
        value := data[at + i] + 256 * value;
      }
      assert old(Remainder())[..n] == data[at..at + n];
      at := at + n;
      r := Some(value);
    }

    /** extract_packed_int_from_byte_span_checked: a failed read does not move. */
    method ExtractPacked() returns (r: Option<nat>)
      requires Valid()
      modifies this
      ensures Valid()
      ensures var d := DecodePacked(old(Remainder()));
        && (r.Some? <==> d.Some?)
        && (d.Some? ==> (r.value, Remainder()) == d.value)
        && (d.None? ==> at == old(at))
    {
      ghost var s := Remainder();
      var start := at;
      var first := ExtractFixed(1);
      if first.None? {
        return None;
      }
      OneOf(s);
      if first.value == 255 {
        at := start;
        return None;
      }
      if first.value < 251 {
        return first;
      }
      if first.value == 251 {
        return Some(U64 - 1);
      }
      var n := if first.value == 252 then 2 else if first.value == 253 then 3 else 8;
      ghost var t := Remainder();
      r := ExtractFixed(n);
      if r.None? {
        at := start;
      } else {
        assert t[..n] == s[1..n + 1] && t[n..] == s[n + 1..];
      }
    }

    /** extract_varlen_int_from_byte_span_checked for an unsigned type: a failed read does not move. */
    method ExtractVarlen(max: nat) returns (r: Option<nat>)
      requires Valid()
      modifies this
      ensures Valid()
      ensures var d := DecodeVarlen(old(Remainder()), max);
        && (r.Some? <==> d.Some?)
        && (d.Some? ==> (r.value, Remainder()) == d.value)
        && (d.None? ==> at == old(at))
    {
      hide Or, ShiftRight, Raised, TrailingOnes, FromLittle;
      ghost var s := Remainder();
      var start := at;
      var first := ExtractFixed(1);
      if first.None? {
        return None;
      }
      OneOf(s);
      var n := TrailingOnes(first.value) + 1;
      if n > |data| - start {
        at := start;
        return None;
      }
      var value := ShiftRight(first.value, n);
      if n == 1 {
        return Some(value);
      }
      ghost var t := Remainder();
      var tmp := ExtractFixed(n - 1);
      assert t[..n - 1] == s[1..n] && t[n - 1..] == s[n..];
      var shifted := Raised(tmp.value, n);
      if shifted > max {
        at := start;
        return None;
      }
      r := Some(Or(value, shifted));
    }

    /** The signed extractor. */
    method ExtractSigned(w: nat) returns (r: Option<int>)
      requires Valid() && w > 0
      modifies this
      ensures Valid()
      ensures var d := DecodeSigned(old(Remainder()), w);
        && (r.Some? <==> d.Some?)
        && (d.Some? ==> (r.value, Remainder()) == d.value)
        && (d.None? ==> at == old(at))
    {
      var d := ExtractVarlen(Pow2(w) - 1);
      r := if d.None? then None else Some(UnZigZag(d.value, w));
    }
  }

  lemma OneOf(s: seq<Byte>)
    requires s != []
    ensures FromLittle(s[..1]) == s[0]
  {
    assert s[..1][1..] == [];
  }

  /** A byte_span: what remains of some buffer. */
  class OutputSpan {
    const buffer: array<Byte>
    var at: nat

    ghost predicate Valid()
      reads this
    {
      at <= buffer.Length
    }

    constructor (buffer: array<Byte>)
      ensures Valid() && this.buffer == buffer && at == 0
    {
      this.buffer, at := buffer, 0;
    }

    /** insert_fixed_int_to_byte_span; the caller has checked the room. */
    method InsertFixed(v: nat, n: nat)
      requires Valid() && n <= buffer.Length - at
      modifies this, buffer
      ensures Valid() && at == old(at) + n
      ensures buffer[..] == old(buffer[..at]) + Little(v, n) + old(buffer[at + n..])
    {
      hide Little;
      var bytes := Little(v, n);
      for i := 0 to n
        invariant at == old(at) && buffer[..at] == old(buffer[..at]) && buffer[at + n..] == old(buffer[at + n..])
        invariant buffer[at..at + i] == bytes[..i]
      {
        buffer[at + i] := bytes[i];
        assert buffer[at..at + i + 1] == buffer[at..at + i] + [bytes[i]];
      }
      assert buffer[..] == buffer[..at] + buffer[at..at + n] + buffer[at + n..];
      at := at + n;
    }

    /** A first byte and a fixed-length rest; the caller has checked the room. */
    method InsertBoth(first: Byte, v: nat, n: nat)
      requires Valid() && n + 1 <= buffer.Length - at
      modifies this, buffer
      ensures Valid() && at == old(at) + n + 1
      ensures buffer[..] == old(buffer[..at]) + ([first] + Little(v, n)) + old(buffer[at + n + 1..])
    {
      hide Little;
      ghost var before, whole := buffer[..at], buffer[..];
      FirstAlone(first);
      InsertFixed(first, 1);
      assert buffer[..at] == before + [first];
      assert buffer[at + n..] == whole[at + n..];
      InsertFixed(v, n);
      assert before + [first] + Little(v, n) == before + ([first] + Little(v, n));
    }

    /** insert_varlen_int_to_byte_span_checked. */
    method InsertVarlen(v: nat) returns (ok: bool)
      requires Valid() && v < U64
      modifies this, buffer
      ensures Valid() && (ok <==> VarlenSize(v) <= buffer.Length - old(at))
      ensures !ok ==> at == old(at) && buffer[..] == old(buffer[..])
      ensures ok ==> at == old(at) + VarlenSize(v)
      ensures ok ==> buffer[..] == old(buffer[..at]) + EncodeVarlen(v) + old(buffer[at + VarlenSize(v)..])
    {
      hide BitWidth, FirstByte, Little, Pow2, HighBits;
      VarlenSizeIsLeast(v);
      var n := VarlenSize(v);
      if n > buffer.Length - at {
        return false;
      }
      ok := true;
      if n == 1 {
        FirstAlone(FirstByte(v, n));
        InsertFixed(FirstByte(v, n), 1);
        return;
      }
      InsertBoth(FirstByte(v, n), HighBits(v, n), n - 1);
    }

    /** insert_packed_int_to_byte_span_checked. */
    method InsertPacked(v: nat) returns (ok: bool)
      requires Valid() && v < U64
      modifies this, buffer
      ensures Valid() && (ok <==> PackedSize(v) <= buffer.Length - old(at))
      ensures !ok ==> at == old(at) && buffer[..] == old(buffer[..])
      ensures ok ==> at == old(at) + PackedSize(v)
      ensures ok ==> buffer[..] == old(buffer[..at]) + EncodePacked(v) + old(buffer[at + PackedSize(v)..])
    {
      hide Little;
      var size := PackedSize(v);
      if size > buffer.Length - at {
        return false;
      }
      ok := true;
      if v < 251 {
        InsertFixed(v, 1);
        return;
      }
      InsertBoth(if size == 3 then 252 else if size == 4 then 253 else 254, v, size - 1);
    }
  }

  lemma FirstAlone(b: Byte)
    ensures Little(b, 1) == [b]
  {
    hide Little;
    OneByte(b);
  }
}
