/**
 * The bytes on the wire.  Round trips do not say which bytes travel; these results do, with the codes of the MySQL
 * protocol written out.
 */
module WireFormat {
  import opened Prelude
  import opened VarlenInt
  import opened Wire
  import opened QueryCodec
  import R = RowsAndFrames
  import G = GreetingCodec

  // ----- integers ----------------------------------------------------------------------

  /** Byte i of an integer has the weight 256 to the power of i. */
  lemma {:induction false} LittleAt(v: nat, n: nat, i: nat)
    requires i < n
    ensures Little(v, n)[i] == v / Pow256(i) % 256
  {
    if i > 0 {
      LittleAt(v / 256, n - 1, i - 1);
      NestedQuotient(v, Pow256(i - 1));
    }
  }

  lemma NestedQuotient(v: nat, p: nat)
    requires p > 0
    ensures v / 256 / p == v / (256 * p)
  {
    var a, b := v / 256, v % 256;
    var q, r := a / p, a % p;
    assert v == 256 * (p * q + r) + b == 256 * p * q + (256 * r + b);
    ModIs(v, 256 * p, q, 256 * r + b);
  }

  lemma {:induction false} LittleOfFrom(s: seq<Byte>)
    ensures Little(FromLittle(s), |s|) == s
  {
    if s != [] { LittleOfFrom(s[1..]); }
  }

  /** One, three, four or nine bytes. */
  function LengthEncoded(v: nat): seq<Byte>
    requires v < U64
  {
    if v < 251 then [v]
    else if v < 0x1_0000 then [0xfc, v % 256, v / 256]
    else if v < 0x100_0000 then [0xfd, v % 256, v / 256 % 256, v / 0x1_0000]
    else [0xfe] + Little(v, 8)
  }

  lemma LittleTwo(v: nat)
    requires v < 0x1_0000
    ensures Little(v, 2) == [v % 256, v / 256]
  {
    assert Little(v / 256, 1) == [v / 256 % 256];
  }

  lemma LittleThree(v: nat)
    requires v < 0x100_0000
    ensures Little(v, 3) == [v % 256, v / 256 % 256, v / 0x1_0000]
  {
    assert Little(v / 256 / 256, 1) == [v / 256 / 256 % 256];
    assert Little(v / 256, 2) == [v / 256 % 256] + Little(v / 256 / 256, 1);
    assert v / 256 / 256 == v / 0x1_0000;
  }

  /** The two length-encoded integers of the repository, the one of the protocol and the one of events, are the same. */
  lemma LengthEncodedBytes(v: nat)
    requires v < U64
    ensures EncodePacked(v) == LengthEncoded(v) && VarBytes(v) == LengthEncoded(v)
  {
    hide Little, Pow256;
    Pow256Values();
    if v < 251 {
      OneByte(v);
      Small(v, 1);
    } else if v < 0x1_0000 {
      LittleTwo(v);
      Small(v, 2);
    } else if v < 0x100_0000 {
      LittleThree(v);
      Small(v, 3);
    } else {
      Small(v, 8);
    }
  }

  /** The low bits in the first byte and the bytes behind it, put together. */
  function Weighted(first: Byte, rest: nat, n: nat): nat
    requires n <= 9
  {
    ShiftRight(first, n) + (if n < 8 then Pow2(8 - n) else 1) * rest
  }

  lemma OrIsSum(first: Byte, rest: nat, n: nat)
    requires 1 <= n <= 9
    ensures Or(ShiftRight(first, n), Raised(rest, n)) == Weighted(first, rest, n)
  {
    hide Pow2, Or, ShiftRight;
    ShiftedByte(first, n);
    if n < 8 {
      OrDisjoint(ShiftRight(first, n), rest, 8 - n);
    } else {
      OrZero(rest);
    }
  }

  /** What is read from a first byte and the bytes that belong to it. */
  lemma ReadsSum(s: seq<Byte>, max: nat)
    requires DecodeVarlen(s, max).Some?
    ensures var n := TrailingOnes(s[0]) + 1;
      1 <= n <= 9 && n <= |s| && DecodeVarlen(s, max).value.0 == Weighted(s[0], FromLittle(s[1..n]), n)
  {
    hide Pow2, Or, FromLittle, TrailingOnes, ShiftRight, Raised, Weighted;
    var n := TrailingOnes(s[0]) + 1;
    Powers();
    FewOnes(s[0], 8);
    if n == 1 {
      NothingBehind(s[0], s[1..n]);
    } else {
      OrIsSum(s[0], FromLittle(s[1..n]), n);
    }
  }

  lemma NothingBehind(first: Byte, s: seq<Byte>)
    requires s == []
    ensures Weighted(first, FromLittle(s), 1) == ShiftRight(first, 1)
  {
    hide ShiftRight, Pow2;
    assert FromLittle(s) == 0;
    Nothing(s, Pow2(7));
  }

  lemma Nothing(s: seq<Byte>, p: nat)
    requires s == []
    ensures p * FromLittle(s) == 0
  {
    assert FromLittle(s) == 0;
  }

  /** The first byte ends with as many ones as bytes follow it; its other bits are the low ones of the value. */
  lemma VarlenBytes(v: nat)
    requires v < U64
    ensures var (s, n) := (EncodeVarlen(v), VarlenSize(v));
      && |s| == n && 1 <= n <= 9 && TrailingOnes(s[0]) == n - 1
      && v == s[0] / Pow2(n) + (if n < 8 then Pow2(8 - n) else 1) * FromLittle(s[1..])
  {
    hide Pow2, FromLittle, TrailingOnes, VarlenSize, DecodeVarlen, FirstByte, LowBits, ShiftRight, Little;
    VarlenSizeIsLeast(v);
    VarlenRoundTrip(v, U64 - 1, []);
    var s, n := EncodeVarlen(v), VarlenSize(v);
    FirstByteReads(v, n);
    assert s + [] == s && s[1..n] == s[1..];
    ReadsSum(s, U64 - 1);
    WeightedIs(s[0], FromLittle(s[1..]), n);
  }

  lemma WeightedIs(first: Byte, rest: nat, n: nat)
    requires n <= 9
    ensures Weighted(first, rest, n) == first / Pow2(n) + (if n < 8 then Pow2(8 - n) else 1) * rest
  {
  }

  // ----- frames and rows ---------------------------------------------------------------

  /** Three bytes of payload size, one byte of sequence number, the payload. */
  lemma FrameBytes(payload: seq<Item>, seqId: nat)
    requires TotalSize(payload) < 0x100_0000 && seqId < 256
    ensures var n := TotalSize(payload);
      Encode(R.FrameItems(payload, seqId))
      == [n % 256, n / 256 % 256, n / 0x1_0000] + [seqId] + Encode(payload)
  {
    hide Little, Encode, TotalSize, Pow256;
    var n := TotalSize(payload);
    EncodeConcat([Fixed(3, n), Fixed(1, seqId)], payload);
    EncodeTwo(Fixed(3, n), Fixed(1, seqId));
    Pow256Values();
    Small(n, 3);
    Small(seqId, 1);
    LittleThree(n);
    OneByte(seqId);
  }

  /** A NULL is the byte 0xfb, any other field its length and its bytes. */
  function RowBytes(row: R.Row): seq<Byte>
    requires R.Sendable(row)
  {
    if row == [] then []
    else
      (if row[0].None? then [0xfb] else LengthEncoded(|row[0].value|) + row[0].value) + RowBytes(row[1..])
  }

  lemma {:induction false} RowIs(row: R.Row)
    requires R.Sendable(row)
    ensures Encode(R.RowItems(row)) == RowBytes(row)
  {
    hide VarBytes, LengthEncoded, EncodePacked;
    if row != [] {
      RowIs(row[1..]);
      assert R.RowItems(row)[1..] == R.RowItems(row[1..]);
      if row[0].Some? { LengthEncodedBytes(|row[0].value|); }
    }
  }

  // ----- queries -----------------------------------------------------------------------

  function TypeBytes(typ: nat): seq<Byte>
    requires typ < 0x1_0000
  {
    [typ % 256, typ / 256]
  }

  /** The type in two bytes and the name of every parameter. */
  function TypeTable(params: seq<Param>): seq<Byte>
    requires forall i :: 0 <= i < |params| ==> GoodParam(params[i])
  {
    if params == [] then []
    else
      assert GoodParam(params[0]);
      TypeBytes(params[0].typ) + LengthEncoded(|params[0].name|) + params[0].name + TypeTable(params[1..])
  }

  lemma {:induction false} TypesAre(params: seq<Param>)
    requires forall i :: 0 <= i < |params| ==> GoodParam(params[i])
    ensures Encode(TypeItems(params)) == TypeTable(params)
  {
    hide VarBytes, LengthEncoded, EncodePacked, Fits, Little, FixedBytes;
    if params != [] {
      var p := params[0];
      TypesAre(params[1..]);
      EncodeConcat([Fixed(2, p.typ), VarStr(p.name)], TypeItems(params[1..]));
      EncodeTwo(Fixed(2, p.typ), VarStr(p.name));
      LengthEncodedBytes(|p.name|);
      TwoBytes(p.typ);
      var (t, l) := (FixedBytes(p.typ, 2), VarBytes(|p.name|));
      assert t + (l + p.name) == t + l + p.name;
    }
  }

  lemma TwoBytes(v: nat)
    requires v < 0x1_0000
    ensures FixedBytes(v, 2) == [v % 256, v / 256]
  {
    Pow256Values();
    Small(v, 2);
    LittleTwo(v);
  }

  /** The command 3, the number of parameters, one set of them, bitmap, flag, types and values, the statement. */
  lemma QueryIs(q: Query)
    requires 0 < |q.params| < S64 && forall i :: 0 <= i < |q.params| ==> GoodParam(q.params[i])
    ensures Encode(QueryItems(q, true))
         == [3] + (LengthEncoded(|q.params|)
                   + ([1] + (NullBitmap(q.params) + [1] + TypeTable(q.params) + Encode(ValueItems(q.params))
                             + q.statement)))
  {
    hide Encode, NullBitmap, TypeItems, ValueItems, BitmapItems, QueryItems, FixedBytes, VarBytes, LengthEncoded,
      TypeTable, EncodePacked, Fits;
    QueryBytes(q);
    ParamsBytes(q.params);
    TypesAre(q.params);
    OneByteIs(3);
    OneByteIs(1);
    LengthEncodedBytes(|q.params|);
    LengthEncodedBytes(1);
    OneLength();
  }

  /** Without query attributes it is the command and the statement. */
  lemma PlainQueryIs(q: Query)
    ensures Encode(QueryItems(q, false)) == [3] + q.statement
  {
    hide FixedBytes;
    EncodeTwo(Fixed(1, 3), Str(q.statement));
    assert QueryItems(q, false) == [Fixed(1, 3), Str(q.statement)];
    OneByteIs(3);
  }

  lemma OneByteIs(v: Byte)
    ensures FixedBytes(v, 1) == [v]
  {
    Pow256Values();
    Small(v, 1);
    OneByte(v);
  }

  lemma OneLength()
    ensures LengthEncoded(1) == [1]
  {
  }

  // ----- the greeting ------------------------------------------------------------------

  predicate Both(a: nat, b: nat, mask: nat)
    requires mask > 0
  {
    a / mask % 2 == 1 && b / mask % 2 == 1
  }

  function Terminated(s: seq<Byte>): seq<Byte> {
    s + [0]
  }

  function Low(v: nat): seq<Byte> {
    [v % 256]
  }

  function Auth(g: G.Greeting, caps: nat): seq<Byte>
    requires |g.auth| < S64
  {
    if Both(g.caps, caps, 0x20_0000) then LengthEncoded(|g.auth|) + g.auth
    else if Both(g.caps, caps, 0x8000) then Low(|g.auth|) + g.auth
    else Terminated(g.auth)
  }

  function Method(g: G.Greeting, caps: nat): seq<Byte> {
    if Both(g.caps, caps, 0x8_0000) && (Both(g.caps, caps, 0x10_0000) || g.authMethod != [])
    then Terminated(g.authMethod) else []
  }

  function Attributes(g: G.Greeting, caps: nat): seq<Byte>
    requires |g.attributes| < S64
  {
    if Both(g.caps, caps, 0x10_0000) then LengthEncoded(|g.attributes|) + g.attributes else []
  }

  function Login(g: G.Greeting, caps: nat): seq<Byte>
    requires |g.auth| < S64 && |g.attributes| < S64
  {
    Terminated(g.username) + Auth(g, caps) + (if Both(g.caps, caps, 0x8) then Terminated(g.schema) else [])
    + Method(g, caps) + Attributes(g, caps)
  }

  /** The response to a handshake, with the capability flags of the protocol. */
  function HandshakeResponse(g: G.Greeting, caps: nat): seq<Byte>
    requires |g.auth| < S64 && |g.attributes| < S64
  {
    if Both(g.caps, caps, 0x200) then
      Little(g.caps % 0x1_0000_0000, 4) + Little(g.maxPacket % 0x1_0000_0000, 4) + Low(g.collation) + G.Zeros(23)
      + if Both(g.caps, caps, 0x800) && g.username == [] then [] else Login(g, caps)
    else
      Little(g.caps % 0x1_0000, 2) + Little(g.maxPacket % 0x100_0000, 3) + Terminated(g.username)
      + if Both(g.caps, caps, 0x8) then Terminated(g.auth) + g.schema else g.auth
  }

  lemma Masks(a: nat, b: nat)
    ensures G.Shared(a, b, G.CONNECT_WITH_SCHEMA) <==> Both(a, b, 0x8)
    ensures G.Shared(a, b, G.PROTOCOL_41) <==> Both(a, b, 0x200)
    ensures G.Shared(a, b, G.SSL) <==> Both(a, b, 0x800)
    ensures G.Shared(a, b, G.SECURE_CONNECTION) <==> Both(a, b, 0x8000)
    ensures G.Shared(a, b, G.PLUGIN_AUTH) <==> Both(a, b, 0x8_0000)
    ensures G.Shared(a, b, G.CONNECT_ATTRIBUTES) <==> Both(a, b, 0x10_0000)
    ensures G.Shared(a, b, G.AUTH_DATA_VARINT) <==> Both(a, b, 0x20_0000)
  {
    MaskValues();
  }

  lemma MaskValues()
    ensures Pow2(3) == 0x8 && Pow2(9) == 0x200 && Pow2(11) == 0x800 && Pow2(15) == 0x8000
    ensures Pow2(19) == 0x8_0000 && Pow2(20) == 0x10_0000 && Pow2(21) == 0x20_0000
  {
    hide Pow2;
    Powers();
    Three();
    Pow2Add(8, 3);
    Doubling(15);
    Pow2Add(16, 3);
    Doubling(19);
    Doubling(20);
  }

  lemma Three()
    ensures Pow2(3) == 8
  {
  }

  lemma NulBytes(s: seq<Byte>)
    ensures Encode([NulStr(s)]) == Terminated(s)
  {
    EncodeOne(NulStr(s));
  }

  lemma CountedBytes(s: seq<Byte>)
    requires |s| < S64
    ensures Encode([VarStr(s)]) == LengthEncoded(|s|) + s
  {
    hide LengthEncoded;
    EncodeOne(VarStr(s));
    LengthEncodedBytes(|s|);
  }

  lemma AuthIs(g: G.Greeting, caps: nat)
    requires |g.auth| < S64
    ensures Encode(G.AuthItems(g, caps)) == Auth(g, caps)
  {
    hide G.Shared, Both, LengthEncoded, Encode;
    Masks(g.caps, caps);
    NulBytes(g.auth);
    CountedBytes(g.auth);
    EncodeTwo(Fixed(1, |g.auth|), Str(g.auth));
    LowIs(|g.auth|);
  }

  lemma LowIs(v: nat)
    ensures FixedBytes(v, 1) == Low(v)
  {
    Pow256Values();
    OneByte(v % 256);
  }

  lemma LoginIs(g: G.Greeting, caps: nat)
    requires |g.auth| < S64 && |g.attributes| < S64
    ensures Encode(G.LoginItems(g, caps)) == Login(g, caps)
  {
    hide G.Shared, Both, LengthEncoded, Encode, Auth, G.AuthItems, Terminated;
    var (u, a, s, m, t) := ([NulStr(g.username)], G.AuthItems(g, caps), G.SchemaItems(g, caps),
                            G.MethodItems(g, caps), G.AttributeItems(g, caps));
    Masks(g.caps, caps);
    AuthIs(g, caps);
    NulBytes(g.username);
    NulBytes(g.schema);
    NulBytes(g.authMethod);
    CountedBytes(g.attributes);
    NothingEncoded();
    EncodeConcat(u + a + s + m, t);
    EncodeConcat(u + a + s, m);
    EncodeConcat(u + a, s);
    EncodeConcat(u, a);
  }

  lemma Head41(g: G.Greeting)
    ensures Encode([Fixed(4, g.caps), Fixed(4, g.maxPacket), Fixed(1, g.collation), Str(G.Zeros(23))])
         == Little(g.caps % 0x1_0000_0000, 4) + Little(g.maxPacket % 0x1_0000_0000, 4) + Low(g.collation) + G.Zeros(23)
  {
    hide G.Zeros, Little, Encode, FixedBytes, Low;
    FourBytes(g.caps);
    FourBytes(g.maxPacket);
    LowIs(g.collation);
    var (a, b, c, z) := (Fixed(4, g.caps), Fixed(4, g.maxPacket), Fixed(1, g.collation), Str(G.Zeros(23)));
    EncodeConcat([a, b], [c, z]);
    EncodeTwo(a, b);
    EncodeTwo(c, z);
    assert [a, b] + [c, z] == [a, b, c, z];
    assert Bytes(a) + Bytes(b) + (Bytes(c) + Bytes(z)) == Bytes(a) + Bytes(b) + Bytes(c) + Bytes(z);
  }

  lemma FourBytes(v: nat)
    ensures FixedBytes(v, 4) == Little(v % 0x1_0000_0000, 4)
    ensures FixedBytes(v, 3) == Little(v % 0x100_0000, 3) && FixedBytes(v, 2) == Little(v % 0x1_0000, 2)
  {
    assert Pow256(4) == 0x1_0000_0000 && Pow256(3) == 0x100_0000 && Pow256(2) == 0x1_0000;
  }

  lemma OldForm(g: G.Greeting, rest: seq<Item>)
    ensures Encode([Fixed(2, g.caps), Fixed(3, g.maxPacket), NulStr(g.username)] + rest)
         == Little(g.caps % 0x1_0000, 2) + Little(g.maxPacket % 0x100_0000, 3) + Terminated(g.username) + Encode(rest)
  {
    hide Little, Encode, FixedBytes, Terminated;
    FourBytes(g.caps);
    FourBytes(g.maxPacket);
    var (a, b, c) := (Fixed(2, g.caps), Fixed(3, g.maxPacket), NulStr(g.username));
    EncodeConcat([a, b, c], rest);
    EncodeConcat([a, b], [c]);
    EncodeTwo(a, b);
    NulBytes(g.username);
    assert [a, b] + [c] == [a, b, c];
  }

  /** The greeting is the handshake response of the protocol, byte by byte, in all its forms. */
  lemma GreetingIs(g: G.Greeting, caps: nat)
    requires |g.auth| < S64 && |g.attributes| < S64
    ensures Encode(G.GreetingItems(g, caps)) == HandshakeResponse(g, caps)
  {
    hide G.Shared, Both, Encode, Login, G.LoginItems, G.Zeros, Little, Terminated, Low;
    Masks(g.caps, caps);
    NothingEncoded();
    if Both(g.caps, caps, 0x200) {
      Head41(g);
      LoginIs(g, caps);
      var head := [Fixed(4, g.caps), Fixed(4, g.maxPacket), Fixed(1, g.collation), Str(G.Zeros(23))];
      EncodeConcat(head, if G.IsShort(g, caps) then [] else G.LoginItems(g, caps));
    } else if Both(g.caps, caps, 0x8) {
      OldForm(g, [NulStr(g.auth), Str(g.schema)]);
      EncodeTwo(NulStr(g.auth), Str(g.schema));
      NulBytes(g.auth);
      EncodeOne(NulStr(g.auth));
    } else {
      OldForm(g, [Str(g.auth)]);
      EncodeOne(Str(g.auth));
    }
  }

  // ----- what is read from any input ---------------------------------------------------

  lemma ThreeBytes(s: seq<Byte>)
    ensures |s| >= 2 ==> FromLittle(s[..2]) == s[0] as int + 256 * s[1] as int
    ensures |s| >= 3 ==> FromLittle(s[..3]) == s[0] as int + 256 * s[1] as int + 0x1_0000 * s[2] as int
  {
    if |s| >= 2 {
      assert s[..2] == [s[0]] + ([s[1]] + []);
      Joined(s[1], []);
      Joined(s[0], [s[1]] + []);
    }
    if |s| >= 3 {
      assert s[..3] == [s[0]] + ([s[1]] + ([s[2]] + []));
      Joined(s[2], []);
      Joined(s[1], [s[2]] + []);
      Joined(s[0], [s[1]] + ([s[2]] + []));
    }
  }

  lemma Joined(b: Byte, s: seq<Byte>)
    ensures FromLittle([b] + s) == b as int + 256 * FromLittle(s) && FromLittle([]) == 0
  {
    assert ([b] + s)[1..] == s;
  }

  /** A length-encoded integer of the protocol: 0xfb and 0xff are refused, eight bytes are taken as signed. */
  lemma VarRead(s: seq<Byte>)
    ensures TakeVar(s)
         == if s == [] || s[0] == 0xfb || s[0] == 0xff then None
            else if s[0] < 0xfb then Some((s[0], s[1..]))
            else if s[0] == 0xfc then if |s| < 3 then None else Some((s[1] as int + 256 * s[2] as int, s[3..]))
            else if s[0] == 0xfd then
              if |s| < 4 then None else Some((s[1] as int + 256 * s[2] as int + 0x1_0000 * s[3] as int, s[4..]))
            else if |s| < 9 then None
            else
              var v := FromLittle(s[1..9]);
              Some((if v < 0x8000_0000_0000_0000 then v else v - 0x1_0000_0000_0000_0000, s[9..]))
  {
    hide FromLittle;
    if s != [] {
      ThreeBytes(s[1..]);
      if |s| >= 9 { assert s[1..][..8] == s[1..9] && s[1..][8..] == s[9..]; }
    }
  }

  /** The one of events: 0xfb stands for the largest value, and eight bytes are unsigned. */
  lemma PackedRead(s: seq<Byte>)
    ensures DecodePacked(s)
         == if s == [] || s[0] == 0xff then None
            else if s[0] == 0xfb then Some((U64 - 1, s[1..]))
            else if s[0] == 0xfe then if |s| < 9 then None else Some((FromLittle(s[1..9]), s[9..]))
            else var r := TakeVar(s); if r.None? then None else Some((r.value.0 % U64, r.value.1))
  {
    hide FromLittle;
    if s != [] {
      ThreeBytes(s[1..]);
      if |s| >= 3 { assert s[1..][..2] == s[1..3]; }
      if |s| >= 4 { assert s[1..][..3] == s[1..4]; }
    }
  }

  /** A string whose length is written as the largest value takes all that remains. */
  lemma LargestLength(rest: seq<Byte>)
    ensures var s := [0xfe, 0xff, 0xff, 0xff, 0xff, 0xff, 0xff, 0xff, 0xff] + rest; TakeVarStr(s) == Some((rest, []))
  {
    hide FromLittle;
    var s := [0xfe, 0xff, 0xff, 0xff, 0xff, 0xff, 0xff, 0xff, 0xff] + rest;
    VarRead(s);
    assert s[1..9] == Little(U64 - 1, 8) by { AllOnes(); }
    Pow256Values();
    LittleValue(U64 - 1, 8);
    assert s[9..] == rest;
  }

  lemma AllOnes()
    ensures Little(U64 - 1, 8) == [0xff, 0xff, 0xff, 0xff, 0xff, 0xff, 0xff, 0xff]
  {
    LittleTwo(0xffff);
    assert Little(0xffff_ffff, 4) == [0xff, 0xff] + Little(0xffff, 2);
    assert Little(0xffff_ffff_ffff, 6) == [0xff, 0xff] + Little(0xffff_ffff, 4);
    assert Little(U64 - 1, 8) == [0xff, 0xff] + Little(0xffff_ffff_ffff, 6);
  }

  /** An accepted query has the command byte, one set of parameters and, if there are any, the flag for new ones. */
  lemma QueryAccepted(s: seq<Byte>, attributes: bool)
    requires DecodeQuery(s, attributes).Some?
    ensures s != [] && s[0] == 3
    ensures !attributes ==> DecodeQuery(s, attributes).value == Query(s[1..], [])
    ensures attributes ==>
      var count := TakeVar(s[1..]);
      && count.Some?
      && var sets := TakeVar(count.value.1);
         && sets.Some? && sets.value.0 == 1
         && (count.value.0 > 0 ==>
               var k := (count.value.0 + 7) / 8;
               |DecodeQuery(s, true).value.params| == count.value.0 && k < |sets.value.1| && sets.value.1[k] == 1)
  {
    hide TakeVar, TakeTypes, TakeValues;
    OneRead(s);
    if attributes && TakeVar(s[1..]).value.0 > 0 {
      SignedRange(s[1..]);
      var n := TakeVar(s[1..]).value.0;
      var rest := TakeVar(TakeVar(s[1..]).value.1).value.1;
      ParamsAccepted(rest, n);
    }
  }

  lemma OneRead(s: seq<Byte>)
    ensures s != [] ==> TakeFixed(s, 1) == Some((s[0], s[1..]))
  {
    if s != [] { assert s[..1] == [s[0]] && [s[0]][1..] == [] && FromLittle([s[0]]) == s[0]; }
  }

  lemma ParamsAccepted(s: seq<Byte>, n: nat)
    requires 0 < n < S64 && TakeParams(s, n).Some?
    ensures var k := (n + 7) / 8; |TakeParams(s, n).value.0| == n && k < |s| && s[k] == 1
  {
    hide TakeTypes, TakeValues, FromLittle;
    var k := (n + 7) / 8;
    OneRead(s[k..]);
    var flag := TakeFixed(s[k..], 1);
    TypesLength(flag.value.1, n);
    var types := TakeTypes(flag.value.1, n);
    ValuesLength(types.value.1, types.value.0, s[..k], 0);
  }

  lemma {:induction false} ValuesLength(s: seq<Byte>, params: seq<Param>, nulls: seq<Byte>, i: nat)
    requires i <= |params| && |params| <= 8 * |nulls| && TakeValues(s, params, nulls, i).Some?
    ensures |TakeValues(s, params, nulls, i).value.0| == |params| - i
    decreases |params| - i
  {
    hide TakeValue, Bit;
    if i < |params| {
      ValuesLength(TakeValue(s, params[i], Bit(nulls[i / 8], i % 8)).value.1, params, nulls, i + 1);
    }
  }

  /** A greeting of the 4.1 form without the end of a user name is accepted only as a request for a secure channel. */
  lemma GreetingAccepted(s: seq<Byte>, caps: nat)
    requires G.DecodeGreeting(s, caps).Some? && G.Shared(FromLittle(s[..2]), caps, G.PROTOCOL_41) && |s| >= 2
    ensures |s| >= 32 && (0 !in s[32..] ==> Both(G.DecodeGreeting(s, caps).value.caps, caps, 0x800))
  {
    hide FromLittle, Or, G.Shared, Both, G.TakeLogin, FindNul;
    Masks(G.DecodeGreeting(s, caps).value.caps, caps);
    assert s[2..][2..][4..][1..][23..] == s[32..];
    NoEnd(s[32..]);
  }

  lemma NoEnd(s: seq<Byte>)
    ensures 0 !in s ==> TakeNulStr(s).None?
  {
    assert FindNul(s) < |s| ==> s[FindNul(s)] in s;
  }
}
