/** The codec of the client's Query command: parameters with a NULL bitmap, a type table and values. */
module QueryCodec {
  import opened Prelude
  import opened VarlenInt
  import opened Wire

  datatype Param = Param(typ: nat, name: seq<Byte>, value: Option<seq<Byte>>)

  datatype Query = Query(statement: seq<Byte>, params: seq<Param>)

  // ----- the NULL bitmap ---------------------------------------------------------------

  /** The bits of at most eight parameters, the first one lowest. */
  function NullByte(params: seq<Param>): nat {
    if params == [] then 0 else (if params[0].value.None? then 1 else 0) + 2 * NullByte(params[1..])
  }

  lemma {:induction false} NullByteBound(params: seq<Param>)
    ensures NullByte(params) < Pow2(|params|)
  {
    if params != [] { NullByteBound(params[1..]); }
  }

  function FirstEight(params: seq<Param>): nat {
    if |params| < 8 then |params| else 8
  }

  function NullBitmap(params: seq<Param>): (b: seq<Byte>)
    ensures |b| == (|params| + 7) / 8
  {
    if params == [] then []
    else
      var n := FirstEight(params);
      NullByteBound(params[..n]);
      EightBits(n);
      [NullByte(params[..n])] + NullBitmap(params[n..])
  }

  lemma EightBits(n: nat)
    requires n <= 8
    ensures Pow2(n) <= 256
  {
    Powers();
    Pow2Add(n, 8 - n);
    assert Pow2(n) * Pow2(8 - n) >= Pow2(n);
  }

  predicate Bit(b: nat, k: nat) {
    b / Pow2(k) % 2 == 1
  }

  lemma {:induction false} NullByteBit(params: seq<Param>, k: nat)
    requires k < |params|
    ensures Bit(NullByte(params), k) <==> params[k].value.None?
  {
    if k > 0 {
      NullByteBit(params[1..], k - 1);
      HalfShift(NullByte(params), k);
      assert NullByte(params) / 2 == NullByte(params[1..]);
    }
  }

  lemma HalfShift(v: nat, k: nat)
    requires k > 0
    ensures v / Pow2(k) == v / 2 / Pow2(k - 1)
  {
    var p := Pow2(k - 1);
    var h := v / 2;
    var a, b := h / p, h % p;
    assert v == 2 * p * a + (2 * b + v % 2);
    ModIs(v, 2 * p, a, 2 * b + v % 2);
  }

  /** Bit i of the bitmap says whether parameter i is NULL. */
  lemma {:induction false} BitmapBit(params: seq<Param>, i: nat)
    requires i < |params|
    ensures Bit(NullBitmap(params)[i / 8], i % 8) <==> params[i].value.None?
    decreases |params|
  {
    hide Bit, NullByte;
    var n := FirstEight(params);
    if i < n {
      NullByteBit(params[..n], i);
      assert params[..n][i] == params[i];
    } else {
      BitmapBit(params[n..], i - 8);
      assert params[n..][i - 8] == params[i];
    }
  }

  lemma BitmapFull(params: seq<Param>)
    requires |params| >= 8
    ensures NullByte(params[..8]) < 256 && NullBitmap(params) == [NullByte(params[..8])] + NullBitmap(params[8..])
  {
    NullByteBound(params[..8]);
    EightBits(8);
  }

  lemma BitmapEnd(params: seq<Param>)
    requires |params| < 8
    ensures NullByte(params) < 256 && NullBitmap(params) == if params == [] then [] else [NullByte(params)]
  {
    NullByteBound(params);
    EightBits(|params|);
    if params != [] {
      assert params[..|params|] == params && params[|params|..] == [];
    }
  }

  /** The loop that packs the bits: a byte is emitted when it is full, and once more at the end. */
  method PackNullBits(params: seq<Param>) returns (bytes: seq<Byte>)
    ensures bytes == NullBitmap(params)
  {
    hide NullByte, NullBitmap, Pow2, Or;
    bytes := [];
    var current, pos := 0, 0;
    EmptyByte();
    assert params[0..] == params && params[0..0] == [] && bytes + NullBitmap(params) == NullBitmap(params);
    for i := 0 to |params|
      invariant 0 <= pos < 8 && pos <= i && current == NullByte(params[i - pos..i])
      invariant NullBitmap(params) == bytes + NullBitmap(params[i - pos..])
    {
      current := PackOne(params, i, pos, current);
      pos := pos + 1;
      if pos > 7 {
        ghost var rest := params[i + 1 - 8..];
        assert rest[..8] == params[i + 1 - 8..i + 1] && rest[8..] == params[i + 1..];
        BitmapFull(rest);
        bytes := bytes + [current];
        pos, current := 0, 0;
        assert params[i + 1..i + 1] == [];
      }
    }
    assert params[|params| - pos..] == params[|params| - pos..|params|];
    BitmapEnd(params[|params| - pos..]);
    if pos != 0 {
      bytes := bytes + [current];
    }
  }

  /** One step of the loop. */
  method PackOne(params: seq<Param>, i: nat, pos: nat, current: nat) returns (next: nat)
    requires pos <= i < |params| && current == NullByte(params[i - pos..i])
    ensures next == NullByte(params[i - pos..i + 1])
  {
    hide NullByte, Pow2, Or;
    ghost var done := params[i - pos..i];
    assert params[i - pos..i + 1] == done + [params[i]];
    NullByteSnoc(done, params[i]);
    NullByteBound(done);
    next := current;
    if params[i].value.None? {
      SetsBit(current, pos);
      next := Or(current, Pow2(pos));
    }
  }

  lemma EmptyByte()
    ensures NullByte([]) == 0
  {
  }

  lemma {:induction false} NullByteSnoc(params: seq<Param>, p: Param)
    ensures NullByte(params + [p]) == NullByte(params) + if p.value.None? then Pow2(|params|) else 0
  {
    if params == [] {
      assert params + [p] == [p] && [p][1..] == [];
    } else {
      assert (params + [p])[1..] == params[1..] + [p];
      NullByteSnoc(params[1..], p);
    }
  }

  lemma SetsBit(b: nat, k: nat)
    requires b < Pow2(k)
    ensures Or(b, Pow2(k)) == b + Pow2(k)
  {
    OrDisjoint(b, 1, k);
  }

  // ----- types and values --------------------------------------------------------------

  /** How the size of a value of a field type is known. */
  datatype SizeKind = Counted | Short | Exactly(n: nat) | Unknown

  function KindOf(typ: nat): SizeKind {
    var t := typ % 256;
    if t in {0x00, 0x0f, 0x10} || 0xf5 <= t then Counted
    else if t in {0x07, 0x0a, 0x0b, 0x0c} then Short
    else if t in {0x05, 0x08} then Exactly(8)
    else if t in {0x03, 0x04, 0x09} then Exactly(4)
    else if t in {0x02, 0x0d} then Exactly(2)
    else if t == 0x01 then Exactly(1)
    else Unknown
  }

  function TypeItems(params: seq<Param>): seq<Item> {
    if params == [] then [] else [Fixed(2, params[0].typ), VarStr(params[0].name)] + TypeItems(params[1..])
  }

  function ValueItemsOf(p: Param): seq<Item> {
    if p.value.None? then []
    else
      (match KindOf(p.typ)
       case Counted => [Var(|p.value.value|)]
       case Short => [Fixed(1, |p.value.value|)]
       case _ => [])
      + [Str(p.value.value)]
  }

  function ValueItems(params: seq<Param>): seq<Item> {
    if params == [] then [] else ValueItemsOf(params[0]) + ValueItems(params[1..])
  }

  function BitmapItems(bytes: seq<Byte>): seq<Item> {
    if bytes == [] then [] else [Fixed(1, bytes[0])] + BitmapItems(bytes[1..])
  }

  /** The bitmap, the flag for new parameters, the types and the values. */
  function BodyItems(params: seq<Param>): seq<Item> {
    if params == [] then []
    else BitmapItems(NullBitmap(params)) + [Fixed(1, 1)] + TypeItems(params) + ValueItems(params)
  }

  /** accumulate_fields of a query; attributes says whether query_attributes is shared. */
  function QueryItems(q: Query, attributes: bool): seq<Item> {
    [Fixed(1, 3)] + (if attributes then [Var(|q.params|), Var(1)] + BodyItems(q.params) else []) + [Str(q.statement)]
  }

  // ----- decoding ----------------------------------------------------------------------

  function TakeTypes(s: seq<Byte>, n: nat): Parsed<seq<Param>>
    decreases n
  {
    if n == 0 then Some(([], s))
    else
      var typ := TakeFixed(s, 2);
      if typ.None? then None
      else
        var name := TakeVarStr(typ.value.1);
        if name.None? then None
        else
          var rest := TakeTypes(name.value.1, n - 1);
          if rest.None? then None
          else Some(([Param(typ.value.0, name.value.0, None)] + rest.value.0, rest.value.1))
  }

  /** decode_field_size. */
  function TakeSize(s: seq<Byte>, typ: nat): Parsed<nat> {
    match KindOf(typ)
    case Counted => var r := TakeVar(s); if r.None? then None else Some((r.value.0 % U64, r.value.1))
    case Short => TakeFixed(s, 1)
    case Exactly(n) => Some((n, s))
    case Unknown => None
  }

  function TakeValue(s: seq<Byte>, p: Param, isNull: bool): Parsed<Param> {
    if isNull then Some((p, s))
    else
      var size := TakeSize(s, p.typ);
      if size.None? then None
      else
        var v := TakeStr(size.value.1, size.value.0);
        if v.None? then None else Some((p.(value := Some(v.value.0)), v.value.1))
  }

  /** The values of the parameters from number i on. */
  function TakeValues(s: seq<Byte>, params: seq<Param>, nulls: seq<Byte>, i: nat): Parsed<seq<Param>>
    requires i <= |params| && |params| <= 8 * |nulls|
    decreases |params| - i
  {
    if i == |params| then Some(([], s))
    else
      var v := TakeValue(s, params[i], Bit(nulls[i / 8], i % 8));
      if v.None? then None
      else
        var rest := TakeValues(v.value.1, params, nulls, i + 1);
        if rest.None? then None else Some(([v.value.0] + rest.value.0, rest.value.1))
  }

  lemma {:induction false} TypesLength(s: seq<Byte>, n: nat)
    ensures TakeTypes(s, n).Some? ==> |TakeTypes(s, n).value.0| == n
    decreases n
  {
    if n > 0 {
      var typ := TakeFixed(s, 2);
      if typ.Some? {
        var name := TakeVarStr(typ.value.1);
        if name.Some? { TypesLength(name.value.1, n - 1); }
      }
    }
  }

  function TakeParams(s: seq<Byte>, n: nat): Parsed<seq<Param>>
    requires 0 < n < S64
  {
    var nulls := TakeStr(s, (n + 7) / 8);
    if nulls.None? then None
    else
      var flag := TakeFixed(nulls.value.1, 1);
      if flag.None? || flag.value.0 != 1 then None
      else
        var types := TakeTypes(flag.value.1, n);
        if types.None? then None
        else
          TypesLength(flag.value.1, n);
          TakeValues(types.value.1, types.value.0, nulls.value.0, 0)
  }

  lemma SignedRange(s: seq<Byte>)
    ensures TakeVar(s).Some? ==> TakeVar(s).value.0 < S64
  {
    if s != [] && s[0] >= 0xfc && s[0] != 0xff {
      var r := TakeFixed(s[1..], if s[0] == 0xfc then 2 else if s[0] == 0xfd then 3 else 8);
      if r.Some? {
        var n := if s[0] == 0xfc then 2 else if s[0] == 0xfd then 3 else 8;
        FromLittleBound(s[1..][..n]);
        Pow256Values();
      }
    }
  }

  function DecodeQuery(s: seq<Byte>, attributes: bool): Option<Query> {
    var cmd := TakeFixed(s, 1);
    if cmd.None? || cmd.value.0 != 3 then None
    else if !attributes then Some(Query(cmd.value.1, []))
    else
      var count := TakeVar(cmd.value.1);
      if count.None? then None
      else
        var sets := TakeVar(count.value.1);
        if sets.None? || sets.value.0 != 1 then None
        else if count.value.0 <= 0 then Some(Query(sets.value.1, []))
        else
          SignedRange(cmd.value.1);
          var params := TakeParams(sets.value.1, count.value.0);
          if params.None? then None else Some(Query(params.value.1, params.value.0))
  }

  // ----- the round trip ----------------------------------------------------------------

  /** A value has the size its type demands. */
  predicate Fits(typ: nat, v: seq<Byte>) {
    match KindOf(typ)
    case Counted => |v| < S64
    case Short => |v| <= 255
    case Exactly(n) => |v| == n
    case Unknown => false
  }

  predicate GoodParam(p: Param) {
    p.typ < 0x1_0000 && |p.name| < S64 && (p.value.Some? ==> Fits(p.typ, p.value.value))
  }

  function Bare(params: seq<Param>): (r: seq<Param>)
    ensures |r| == |params|
  {
    if params == [] then [] else [params[0].(value := None)] + Bare(params[1..])
  }

  lemma {:induction false} BareAt(params: seq<Param>, i: nat)
    requires i < |params|
    ensures Bare(params)[i] == params[i].(value := None)
  {
    if i > 0 { BareAt(params[1..], i - 1); }
  }

  lemma {:induction false} BitmapBytes(bytes: seq<Byte>)
    ensures Encode(BitmapItems(bytes)) == bytes
  {
    if bytes != [] {
      BitmapBytes(bytes[1..]);
      assert BitmapItems(bytes)[1..] == BitmapItems(bytes[1..]);
      OneFixed(bytes[0]);
    }
  }

  lemma EncodeTwo(a: Item, b: Item)
    ensures Encode([a, b]) == Bytes(a) + Bytes(b)
  {
    assert [a, b][1..] == [b];
    assert Encode([b]) == Bytes(b) + Encode([]);
  }

  lemma EncodeOne(a: Item)
    ensures Encode([a]) == Bytes(a)
  {
    assert Encode([a]) == Bytes(a) + Encode([]);
  }

  lemma {:induction false} TypesTrip(params: seq<Param>, rest: seq<Byte>)
    requires forall i :: 0 <= i < |params| ==> GoodParam(params[i])
    ensures TakeTypes(Encode(TypeItems(params)) + rest, |params|) == Some((Bare(params), rest))
  {
    hide Bytes, TakeFixed, TakeVarStr, FixedBytes, Fits;
    if params != [] {
      var p := params[0];
      TypesTrip(params[1..], rest);
      var more := Encode(TypeItems(params[1..])) + rest;
      EncodeConcat([Fixed(2, p.typ), VarStr(p.name)], TypeItems(params[1..]));
      EncodeTwo(Fixed(2, p.typ), VarStr(p.name));
      TypeTrip(p, more);
      assert Encode(TypeItems(params)) + rest == Bytes(Fixed(2, p.typ)) + (Bytes(VarStr(p.name)) + more);
    } else {
      assert Encode(TypeItems(params)) + rest == rest;
    }
  }

  lemma TypeTrip(p: Param, more: seq<Byte>)
    requires GoodParam(p)
    ensures TakeFixed(Bytes(Fixed(2, p.typ)) + (Bytes(VarStr(p.name)) + more), 2)
         == Some((p.typ, Bytes(VarStr(p.name)) + more))
    ensures TakeVarStr(Bytes(VarStr(p.name)) + more) == Some((p.name, more))
  {
    Pow256Values();
    Small(p.typ, 2);
    FixedTrip(p.typ, 2, Bytes(VarStr(p.name)) + more);
    VarStrTrip(p.name, more);
  }

  /** The size of a value, wherever it is kept, is found again. */
  lemma SizeTrip(p: Param, v: seq<Byte>, rest: seq<Byte>)
    requires p.value == Some(v) && Fits(p.typ, v)
    ensures exists head ::
      Encode(ValueItemsOf(p)) == head + v && TakeSize(head + (v + rest), p.typ) == Some((|v|, v + rest))
  {
    hide TakeVar, TakeFixed, FixedBytes, VarBytes;
    EncodeOne(Str(v));
    match KindOf(p.typ)
    case Counted =>
      assert ValueItemsOf(p) == [Var(|v|), Str(v)];
      EncodeTwo(Var(|v|), Str(v));
      VarTrip(|v|, v + rest);
      assert Encode(ValueItemsOf(p)) == VarBytes(|v|) + v;
    case Short =>
      assert ValueItemsOf(p) == [Fixed(1, |v|), Str(v)];
      EncodeTwo(Fixed(1, |v|), Str(v));
      Pow256Values();
      Small(|v|, 1);
      FixedTrip(|v|, 1, v + rest);
      assert Encode(ValueItemsOf(p)) == FixedBytes(|v|, 1) + v;
    case Exactly(n) =>
      assert ValueItemsOf(p) == [Str(v)];
      assert Encode(ValueItemsOf(p)) == [] + v && [] + (v + rest) == v + rest;
  }

  lemma ValueTrip(p: Param, rest: seq<Byte>)
    requires GoodParam(p)
    ensures TakeValue(Encode(ValueItemsOf(p)) + rest, p.(value := None), p.value.None?) == Some((p, rest))
  {
    hide TakeSize;
    if p.value.Some? {
      var v := p.value.value;
      hide ValueItemsOf, Encode;
      SizeTrip(p, v, rest);
      var head :| Encode(ValueItemsOf(p)) == head + v && TakeSize(head + (v + rest), p.typ) == Some((|v|, v + rest));
      assert head + v + rest == head + (v + rest);
      FitsBound(p.typ, v);
      StrTrip(v, rest);
    } else {
      assert Encode(ValueItemsOf(p)) + rest == rest;
    }
  }

  lemma FitsBound(typ: nat, v: seq<Byte>)
    requires Fits(typ, v)
    ensures |v| < S64
  {
  }

  lemma {:induction false} ValuesTrip(params: seq<Param>, i: nat, rest: seq<Byte>)
    requires i <= |params| && forall k :: 0 <= k < |params| ==> GoodParam(params[k])
    ensures TakeValues(Encode(ValueItems(params[i..])) + rest, Bare(params), NullBitmap(params), i)
         == Some((params[i..], rest))
    decreases |params| - i
  {
    hide TakeValue, ValueItemsOf, GoodParam, Bit, NullBitmap, Encode, ValueItems, Bare;
    if i < |params| {
      var p := params[i];
      assert params[i..] == [p] + params[i + 1..];
      ValuesTrip(params, i + 1, rest);
      BareAt(params, i);
      BitmapBit(params, i);
      var more := Encode(ValueItems(params[i + 1..])) + rest;
      ValuesFrom(params, i);
      ValueTrip(p, more);
      assert Encode(ValueItems(params[i..])) + rest == Encode(ValueItemsOf(p)) + more;
    } else {
      NoValues(params[i..]);
      assert params[i..] == [] && Encode(ValueItems(params[i..])) + rest == rest;
    }
  }

  lemma ValuesFrom(params: seq<Param>, i: nat)
    requires i < |params|
    ensures Encode(ValueItems(params[i..])) == Encode(ValueItemsOf(params[i])) + Encode(ValueItems(params[i + 1..]))
  {
    hide Encode, ValueItemsOf;
    assert params[i..][1..] == params[i + 1..];
    EncodeConcat(ValueItemsOf(params[i]), ValueItems(params[i + 1..]));
  }

  lemma NoValues(params: seq<Param>)
    ensures params == [] ==> Encode(ValueItems(params)) == []
  {
  }

  /** Without the shared capability the parameters are not sent. */
  function Carried(q: Query, attributes: bool): Query {
    if attributes then q else Query(q.statement, [])
  }

  lemma ParamsBytes(params: seq<Param>)
    ensures Encode(BitmapItems(NullBitmap(params)) + [Fixed(1, 1)] + TypeItems(params) + ValueItems(params))
         == NullBitmap(params) + FixedBytes(1, 1) + Encode(TypeItems(params)) + Encode(ValueItems(params))
  {
    hide Encode, FixedBytes, NullBitmap, TypeItems, ValueItems, BitmapItems;
    var nulls := BitmapItems(NullBitmap(params));
    EncodeConcat(nulls + [Fixed(1, 1)] + TypeItems(params), ValueItems(params));
    EncodeConcat(nulls + [Fixed(1, 1)], TypeItems(params));
    EncodeConcat(nulls, [Fixed(1, 1)]);
    BitmapBytes(NullBitmap(params));
    EncodeOne(Fixed(1, 1));
  }

  lemma Regroup(a: seq<Byte>, b: seq<Byte>, c: seq<Byte>, d: seq<Byte>, e: seq<Byte>)
    ensures a + b + c + d + e == a + (b + (c + (d + e)))
  {
  }

  lemma ParamsTrip(params: seq<Param>, rest: seq<Byte>)
    requires 0 < |params| < S64 && forall i :: 0 <= i < |params| ==> GoodParam(params[i])
    ensures
      var s := Encode(BitmapItems(NullBitmap(params)) + [Fixed(1, 1)] + TypeItems(params) + ValueItems(params));
      TakeParams(s + rest, |params|) == Some((params, rest))
  {
    hide Encode, TakeFixed, TakeStr, FixedBytes, TakeTypes, TakeValues, GoodParam, TypeItems, ValueItems, BitmapItems,
      Bare;
    var nulls := NullBitmap(params);
    hide NullBitmap;
    var types, values := Encode(TypeItems(params)), Encode(ValueItems(params));
    ParamsBytes(params);
    Regroup(nulls, FixedBytes(1, 1), types, values, rest);
    StrTrip(nulls, FixedBytes(1, 1) + (types + (values + rest)));
    OneFlag(1, types + (values + rest));
    TypesTrip(params, values + rest);
    AllValues(params, rest);
  }

  lemma AllValues(params: seq<Param>, rest: seq<Byte>)
    requires forall k :: 0 <= k < |params| ==> GoodParam(params[k])
    ensures TakeValues(Encode(ValueItems(params)) + rest, Bare(params), NullBitmap(params), 0) == Some((params, rest))
  {
    hide TakeValues, Encode, ValueItems, GoodParam;
    ValuesTrip(params, 0, rest);
    assert params[0..] == params;
  }

  lemma OneFlag(v: Byte, rest: seq<Byte>)
    ensures TakeFixed(FixedBytes(v, 1) + rest, 1) == Some((v, rest))
  {
    Pow256Values();
    Small(v, 1);
    FixedTrip(v, 1, rest);
  }

  lemma PlainQueryTrip(q: Query)
    ensures DecodeQuery(Encode(QueryItems(q, false)), false) == Some(Query(q.statement, []))
  {
    hide TakeFixed, FixedBytes;
    EncodeTwo(Fixed(1, 3), Str(q.statement));
    assert QueryItems(q, false) == [Fixed(1, 3), Str(q.statement)];
    OneFlag(3, q.statement);
  }

  lemma QueryBytes(q: Query)
    ensures Encode(QueryItems(q, true))
         == FixedBytes(3, 1) + (VarBytes(|q.params|) + (VarBytes(1) + (Encode(BodyItems(q.params)) + q.statement)))
  {
    hide Encode, FixedBytes, VarBytes, BodyItems, TypeItems, ValueItems, BitmapItems, NullBitmap;
    var counts, body := [Var(|q.params|), Var(1)], BodyItems(q.params);
    EncodeConcat([Fixed(1, 3)] + (counts + body), [Str(q.statement)]);
    EncodeConcat([Fixed(1, 3)], counts + body);
    EncodeConcat(counts, body);
    EncodeTwo(Var(|q.params|), Var(1));
    EncodeOne(Str(q.statement));
    EncodeOne(Fixed(1, 3));
  }

  lemma AttributesQueryTrip(q: Query)
    requires |q.params| < S64 && forall i :: 0 <= i < |q.params| ==> GoodParam(q.params[i])
    ensures DecodeQuery(Encode(QueryItems(q, true)), true) == Some(q)
  {
    hide TakeFixed, FixedBytes, TakeVar, VarBytes, TakeParams, GoodParam, NullBitmap, TypeItems, ValueItems,
      BitmapItems, Encode, QueryItems;
    var rest := Encode(BodyItems(q.params)) + q.statement;
    QueryBytes(q);
    OneFlag(3, VarBytes(|q.params|) + (VarBytes(1) + rest));
    VarTrip(|q.params|, VarBytes(1) + rest);
    VarTrip(1, rest);
    if q.params == [] {
      NothingEncoded();
      assert rest == q.statement;
    } else {
      ParamsTrip(q.params, q.statement);
    }
  }

  /** Every query with correctly sized values comes back, whatever values are NULL. */
  lemma QueryTrip(q: Query, attributes: bool)
    requires |q.params| < S64 && forall i :: 0 <= i < |q.params| ==> GoodParam(q.params[i])
    ensures DecodeQuery(Encode(QueryItems(q, attributes)), attributes) == Some(Carried(q, attributes))
  {
    hide DecodeQuery, Encode, QueryItems, GoodParam;
    if attributes {
      AttributesQueryTrip(q);
    } else {
      PlainQueryTrip(q);
    }
  }

  lemma NothingEncoded()
    ensures Encode([]) == []
  {
  }

  // ----- the bytes of a value ----------------------------------------------------------

  /** The field types of the protocol that values can have. */
  datatype FieldType =
    | Decimal | Tiny | ShortInt | Long | Float | Double | Timestamp | LongLong | Int24 | Date | Time | DateTime | Year
    | Varchar | BitField | Json | NewDecimal | Enumeration | SetField | TinyBlob | MediumBlob | LongBlob | Blob
    | VarString | StringField | Geometry

  function CodeOf(f: FieldType): nat {
    match f
    case Decimal => 0x00 case Tiny => 0x01 case ShortInt => 0x02 case Long => 0x03 case Float => 0x04
    case Double => 0x05 case Timestamp => 0x07 case LongLong => 0x08 case Int24 => 0x09 case Date => 0x0a
    case Time => 0x0b case DateTime => 0x0c case Year => 0x0d case Varchar => 0x0f case BitField => 0x10
    case Json => 0xf5 case NewDecimal => 0xf6 case Enumeration => 0xf7 case SetField => 0xf8 case TinyBlob => 0xf9
    case MediumBlob => 0xfa case LongBlob => 0xfb case Blob => 0xfc case VarString => 0xfd case StringField => 0xfe
    case Geometry => 0xff
  }

  /** The bytes of a number, which are not counted. */
  function Width(f: FieldType): Option<nat> {
    match f
    case Tiny => Some(1)
    case ShortInt | Year => Some(2)
    case Long | Int24 | Float => Some(4)
    case LongLong | Double => Some(8)
    case _ => None
  }

  predicate IsTemporal(f: FieldType) {
    f.Date? || f.DateTime? || f.Timestamp? || f.Time?
  }

  lemma KindIs(f: FieldType, typ: nat)
    requires typ % 256 == CodeOf(f)
    ensures KindOf(typ)
         == if Width(f).Some? then Exactly(Width(f).value) else if IsTemporal(f) then Short else Counted
  {
  }

  /** Numbers are their bytes, times have a length byte, everything else a length-encoded length. */
  lemma ValueBytes(f: FieldType, p: Param, v: seq<Byte>)
    requires p.typ % 256 == CodeOf(f) && p.value == Some(v)
    ensures Encode(ValueItemsOf(p))
         == if Width(f).Some? then v else if IsTemporal(f) then FixedBytes(|v|, 1) + v else VarBytes(|v|) + v
    ensures Fits(p.typ, v)
      <==> if Width(f).Some? then |v| == Width(f).value else if IsTemporal(f) then |v| <= 255 else |v| < S64
  {
    hide FixedBytes, VarBytes, KindOf, CodeOf, Width, IsTemporal, Encode;
    KindIs(f, p.typ);
    EncodeOne(Str(v));
    EncodeTwo(Fixed(1, |v|), Str(v));
    EncodeTwo(Var(|v|), Str(v));
    assert [] + [Str(v)] == [Str(v)] && [Var(|v|)] + [Str(v)] == [Var(|v|), Str(v)];
    assert [Fixed(1, |v|)] + [Str(v)] == [Fixed(1, |v|), Str(v)];
  }

  /** As many bytes of a number are read as its type has, whatever they are. */
  lemma NumberRead(f: FieldType, p: Param, s: seq<Byte>)
    requires p.typ % 256 == CodeOf(f) && Width(f).Some?
    ensures TakeValue(s, p, false)
         == var n := Width(f).value; if |s| < n then None else Some((p.(value := Some(s[..n])), s[n..]))
  {
  }

  /** The length byte of a time says how much is read. */
  lemma TemporalRead(f: FieldType, p: Param, s: seq<Byte>)
    requires p.typ % 256 == CodeOf(f) && IsTemporal(f)
    ensures TakeValue(s, p, false)
         == if s == [] || |s| - 1 < s[0] then None
            else Some((p.(value := Some(s[1..][..s[0]])), s[1..][s[0]..]))
  {
    hide KindOf, CodeOf;
    KindIs(f, p.typ);
    if s != [] { assert s[..1] == [s[0]] && [s[0]][1..] == [] && FromLittle([s[0]]) == s[0]; }
  }

  ghost predicate KnownCode(t: nat) {
    exists f :: CodeOf(f) == t
  }

  lemma NotThis(f: FieldType, t: nat)
    requires !KnownCode(t)
    ensures t != CodeOf(f)
  {
  }

  lemma UnknownNumbers(t: nat)
    requires !KnownCode(t)
    ensures t !in {0x01, 0x02, 0x03, 0x04, 0x05, 0x08, 0x09, 0x0d}
  {
    hide KnownCode;
    NotThis(Tiny, t);
    NotThis(ShortInt, t);
    NotThis(Long, t);
    NotThis(Float, t);
    NotThis(Double, t);
    NotThis(LongLong, t);
    NotThis(Int24, t);
    NotThis(Year, t);
  }

  lemma UnknownStrings(t: nat)
    requires !KnownCode(t)
    ensures t !in {0x00, 0x07, 0x0a, 0x0b, 0x0c, 0x0f, 0x10}
  {
    hide KnownCode;
    NotThis(Decimal, t);
    NotThis(Timestamp, t);
    NotThis(Date, t);
    NotThis(Time, t);
    NotThis(DateTime, t);
    NotThis(Varchar, t);
    NotThis(BitField, t);
  }

  lemma UnknownHigh(t: nat)
    requires !KnownCode(t)
    ensures t !in {0xf5, 0xf6, 0xf7, 0xf8, 0xf9, 0xfa, 0xfb, 0xfc, 0xfd, 0xfe, 0xff}
  {
    hide KnownCode;
    NotThis(Json, t);
    NotThis(NewDecimal, t);
    NotThis(Enumeration, t);
    NotThis(SetField, t);
    NotThis(TinyBlob, t);
    NotThis(MediumBlob, t);
    NotThis(LongBlob, t);
    NotThis(Blob, t);
    NotThis(VarString, t);
    NotThis(StringField, t);
    NotThis(Geometry, t);
  }

  lemma UnknownKind(typ: nat)
    requires !KnownCode(typ % 256)
    ensures KindOf(typ).Unknown?
  {
    hide KnownCode;
    UnknownNumbers(typ % 256);
    UnknownStrings(typ % 256);
    UnknownHigh(typ % 256);
  }

  /** A value of any other type is refused. */
  lemma UnknownRefused(s: seq<Byte>, p: Param)
    requires !KnownCode(p.typ % 256)
    ensures TakeValue(s, p, false).None?
  {
    hide KindOf;
    UnknownKind(p.typ);
  }

  // ----- the decoding loops ------------------------------------------------------------

  lemma {:induction false} TypesOneMore(s: seq<Byte>, n: nat)
    ensures TakeTypes(s, n + 1) ==
      var first := TakeTypes(s, n);
      if first.None? then None
      else
        var one := TakeTypes(first.value.1, 1);
        if one.None? then None else Some((first.value.0 + one.value.0, one.value.1))
    decreases n
  {
    hide TakeFixed, TakeVarStr;
    if n == 0 {
      var one := TakeTypes(s, 1);
      assert one.Some? ==> [] + one.value.0 == one.value.0;
    } else {
      var typ := TakeFixed(s, 2);
      if typ.Some? {
        var name := TakeVarStr(typ.value.1);
        if name.Some? {
          TypesOneMore(name.value.1, n - 1);
          var first := TakeTypes(name.value.1, n - 1);
          if first.Some? {
            var one := TakeTypes(first.value.1, 1);
            var p := Param(typ.value.0, name.value.0, None);
            assert one.Some? ==> [p] + (first.value.0 + one.value.0) == [p] + first.value.0 + one.value.0;
          }
        }
      }
    }
  }

  /** The loop that reads types and names. */
  method ReadTypes(s: seq<Byte>, n: nat) returns (r: Parsed<seq<Param>>)
    ensures r == TakeTypes(s, n)
  {
    hide TakeFixed, TakeVarStr;
    var rest, params: seq<Param> := s, [];
    for i := 0 to n
      invariant TakeTypes(s, i) == Some((params, rest))
    {
      TypesOneMore(s, i);
      var typ := TakeFixed(rest, 2);
      if typ.None? {
        TypesStop(s, i + 1, n);
        return None;
      }
      var name := TakeVarStr(typ.value.1);
      if name.None? {
        TypesStop(s, i + 1, n);
        return None;
      }
      assert TakeTypes(name.value.1, 0) == Some(([], name.value.1));
      ghost var p := Param(typ.value.0, name.value.0, None);
      assert TakeTypes(rest, 1) == Some(([p] + [], name.value.1)) && params + ([p] + []) == params + [p];
      params := params + [Param(typ.value.0, name.value.0, None)];
      rest := name.value.1;
    }
    r := Some((params, rest));
  }

  lemma {:induction false} TypesStop(s: seq<Byte>, i: nat, n: nat)
    requires i <= n && TakeTypes(s, i).None?
    ensures TakeTypes(s, n).None?
    decreases n - i
  {
    if i < n {
      TypesOneMore(s, i);
      TypesStop(s, i + 1, n);
    }
  }

  /** The loop that reads the values, with its own count of bits and bytes in the bitmap. */
  method ReadValues(s: seq<Byte>, types: seq<Param>, nulls: seq<Byte>) returns (r: Parsed<seq<Param>>)
    requires |types| <= 8 * |nulls|
    ensures r == TakeValues(s, types, nulls, 0)
  {
    hide TakeValue, Bit;
    var rest, params: seq<Param> := s, [];
    var bitPos, bytePos := 0, 0;
    ghost var whole := TakeValues(s, types, nulls, 0);
    assert whole.Some? ==> [] + whole.value.0 == whole.value.0;
    for i := 0 to |types|
      invariant bytePos * 8 + bitPos == i && 0 <= bitPos <= 8 && bytePos >= 0
      invariant whole ==
                var more := TakeValues(rest, types, nulls, i);
                if more.None? then None else Some((params + more.value.0, more.value.1))
    {
      if bitPos > 7 {
        bytePos, bitPos := bytePos + 1, 0;
      }
      assert i / 8 == bytePos && i % 8 == bitPos;
      var v := TakeValue(rest, types[i], Bit(nulls[bytePos], bitPos));
      if v.None? {
        return None;
      }
      ghost var more := TakeValues(v.value.1, types, nulls, i + 1);
      assert more.Some? ==> params + ([v.value.0] + more.value.0) == params + [v.value.0] + more.value.0;
      params, rest := params + [v.value.0], v.value.1;
      bitPos := bitPos + 1;
    }
    assert params + [] == params;
    r := Some((params, rest));
  }
}
