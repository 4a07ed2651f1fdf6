/** The codec of the client's Greeting: what is sent depends on the capabilities both sides have. */
module GreetingCodec {
  import opened Prelude
  import opened VarlenInt
  import opened Wire
  import opened QueryCodec

  const CONNECT_WITH_SCHEMA := 3
  const PROTOCOL_41 := 9
  const SSL := 11
  const SECURE_CONNECTION := 15
  const PLUGIN_AUTH := 19
  const CONNECT_ATTRIBUTES := 20
  const AUTH_DATA_VARINT := 21

  datatype Greeting = Greeting(caps: nat, maxPacket: nat, collation: nat, username: seq<Byte>, auth: seq<Byte>,
                               schema: seq<Byte>, authMethod: seq<Byte>, attributes: seq<Byte>)

  /** A capability that both sides have. */
  predicate Shared(a: nat, b: nat, p: nat) {
    Bit(a, p) && Bit(b, p)
  }

  // ----- encoding ----------------------------------------------------------------------

  function Zeros(n: nat): (s: seq<Byte>)
    ensures |s| == n
  {
    if n == 0 then [] else [0] + Zeros(n - 1)
  }

  function AuthItems(g: Greeting, caps: nat): seq<Item> {
    if Shared(g.caps, caps, AUTH_DATA_VARINT) then [VarStr(g.auth)]
    else if Shared(g.caps, caps, SECURE_CONNECTION) then [Fixed(1, |g.auth|), Str(g.auth)]
    else [NulStr(g.auth)]
  }

  function SchemaItems(g: Greeting, caps: nat): seq<Item> {
    if Shared(g.caps, caps, CONNECT_WITH_SCHEMA) then [NulStr(g.schema)] else []
  }

  /** An empty method name is left out when nothing follows it. */
  function MethodItems(g: Greeting, caps: nat): seq<Item> {
    if Shared(g.caps, caps, PLUGIN_AUTH) && (Shared(g.caps, caps, CONNECT_ATTRIBUTES) || g.authMethod != [])
    then [NulStr(g.authMethod)] else []
  }

  function AttributeItems(g: Greeting, caps: nat): seq<Item> {
    if Shared(g.caps, caps, CONNECT_ATTRIBUTES) then [VarStr(g.attributes)] else []
  }

  /** The short form asks for TLS and holds nothing else. */
  predicate IsShort(g: Greeting, caps: nat) {
    Shared(g.caps, caps, SSL) && g.username == []
  }

  function LoginItems(g: Greeting, caps: nat): seq<Item> {
    [NulStr(g.username)] + AuthItems(g, caps) + SchemaItems(g, caps) + MethodItems(g, caps) + AttributeItems(g, caps)
  }

  /** accumulate_fields of a greeting. */
  function GreetingItems(g: Greeting, caps: nat): seq<Item> {
    if Shared(g.caps, caps, PROTOCOL_41) then
      [Fixed(4, g.caps), Fixed(4, g.maxPacket), Fixed(1, g.collation), Str(Zeros(23))]
      + (if IsShort(g, caps) then [] else LoginItems(g, caps))
    else
      [Fixed(2, g.caps), Fixed(3, g.maxPacket), NulStr(g.username)]
      + (if Shared(g.caps, caps, CONNECT_WITH_SCHEMA) then [NulStr(g.auth), Str(g.schema)] else [Str(g.auth)])
  }

  // ----- decoding ----------------------------------------------------------------------

  function TakeAuth(s: seq<Byte>, c: nat, caps: nat): Parsed<seq<Byte>> {
    if Shared(c, caps, AUTH_DATA_VARINT) then TakeVarStr(s)
    else if Shared(c, caps, SECURE_CONNECTION) then
      var n := TakeFixed(s, 1);
      if n.None? then None else TakeStr(n.value.1, n.value.0)
    else TakeNulStr(s)
  }

  function TakeSchema(s: seq<Byte>, c: nat, caps: nat): Parsed<seq<Byte>> {
    if Shared(c, caps, CONNECT_WITH_SCHEMA) then TakeNulStr(s) else Some(([], s))
  }

  function TakeMethod(s: seq<Byte>, c: nat, caps: nat): Parsed<seq<Byte>> {
    if Shared(c, caps, PLUGIN_AUTH) && s != [] then TakeNulStr(s) else Some(([], s))
  }

  function TakeAttributes(s: seq<Byte>, c: nat, caps: nat): Parsed<seq<Byte>> {
    if Shared(c, caps, CONNECT_ATTRIBUTES) then TakeVarStr(s) else Some(([], s))
  }

  /** Everything behind the username. */
  function TakeLogin(s: seq<Byte>, g: Greeting, caps: nat): Option<Greeting> {
    var auth := TakeAuth(s, g.caps, caps);
    if auth.None? then None
    else
      var schema := TakeSchema(auth.value.1, g.caps, caps);
      if schema.None? then None
      else
        var how := TakeMethod(schema.value.1, g.caps, caps);
        if how.None? then None
        else
          var attributes := TakeAttributes(how.value.1, g.caps, caps);
          if attributes.None? then None
          else
            Some(g.(auth := auth.value.0, schema := schema.value.0, authMethod := how.value.0,
                    attributes := attributes.value.0))
  }

  /** The form of protocol 4.1, behind the low half of the capabilities. */
  function Take41(s: seq<Byte>, low: nat, caps: nat): Option<Greeting> {
    var high := TakeFixed(s, 2);
    if high.None? then None
    else
      var c := Or(low, high.value.0 * 0x1_0000);
      var packet := TakeFixed(high.value.1, 4);
      if packet.None? then None
      else
        var collation := TakeFixed(packet.value.1, 1);
        if collation.None? then None
        else
          var filler := TakeStr(collation.value.1, 23);
          if filler.None? then None
          else
            var g := Greeting(c, packet.value.0, collation.value.0, [], [], [], [], []);
            var username := TakeNulStr(filler.value.1);
            if username.None? then
              if Shared(c, caps, SSL) then Some(g) else None
            else TakeLogin(username.value.1, g.(username := username.value.0), caps)
  }

  /** The form before protocol 4.1. */
  function TakeOld(s: seq<Byte>, low: nat, caps: nat): Option<Greeting> {
    var packet := TakeFixed(s, 3);
    if packet.None? then None
    else
      var username := TakeNulStr(packet.value.1);
      if username.None? then None
      else
        var g := Greeting(low, packet.value.0, 0, username.value.0, [], [], [], []);
        if Shared(low, caps, CONNECT_WITH_SCHEMA) then
          var auth := TakeNulStr(username.value.1);
          if auth.None? then None else Some(g.(auth := auth.value.0, schema := auth.value.1))
        else Some(g.(auth := username.value.1))
  }

  function DecodeGreeting(s: seq<Byte>, caps: nat): Option<Greeting> {
    var low := TakeFixed(s, 2);
    if low.None? then None
    else if Shared(low.value.0, caps, PROTOCOL_41) then Take41(low.value.1, low.value.0, caps)
    else TakeOld(low.value.1, low.value.0, caps)
  }

  // ----- what is carried ---------------------------------------------------------------

  function Kept(s: seq<Byte>, carried: bool): seq<Byte> {
    if carried then s else []
  }

  /** The greeting as the other side sees it: fields that are not carried are blank. */
  function CarriedGreeting(g: Greeting, caps: nat): Greeting {
    if !Shared(g.caps, caps, PROTOCOL_41) then
      Greeting(g.caps % 0x1_0000, g.maxPacket % 0x100_0000, 0, g.username, g.auth,
               Kept(g.schema, Shared(g.caps, caps, CONNECT_WITH_SCHEMA)), [], [])
    else if IsShort(g, caps) then
      Greeting(g.caps, g.maxPacket, g.collation, [], [], [], [], [])
    else
      g.(schema := Kept(g.schema, Shared(g.caps, caps, CONNECT_WITH_SCHEMA)),
         authMethod := Kept(g.authMethod, Shared(g.caps, caps, PLUGIN_AUTH)),
         attributes := Kept(g.attributes, Shared(g.caps, caps, CONNECT_ATTRIBUTES)))
  }

  /** The strings fit the way they are sent. */
  predicate SendableGreeting(g: Greeting, caps: nat) {
    && g.caps < 0x1_0000_0000 && g.maxPacket < 0x1_0000_0000 && g.collation < 256 && NulFree(g.username)
    && if Shared(g.caps, caps, PROTOCOL_41) then IsShort(g, caps) || SendableLogin(g, caps)
       else Shared(g.caps, caps, CONNECT_WITH_SCHEMA) ==> NulFree(g.auth)
  }

  predicate SendableLogin(g: Greeting, caps: nat) {
    && (if Shared(g.caps, caps, AUTH_DATA_VARINT) then |g.auth| < S64
        else if Shared(g.caps, caps, SECURE_CONNECTION) then |g.auth| < 256
        else NulFree(g.auth))
    && (Shared(g.caps, caps, CONNECT_WITH_SCHEMA) ==> NulFree(g.schema))
    && (Shared(g.caps, caps, PLUGIN_AUTH) ==> NulFree(g.authMethod))
    && (Shared(g.caps, caps, CONNECT_ATTRIBUTES) ==> |g.attributes| < S64)
  }

  // ----- capabilities in halves --------------------------------------------------------

  lemma ShiftSum(d: nat, x: nat, l: nat)
    requires d > 0
    ensures (d * x + l) / d == x + l / d
  {
    var a, b := l / d, l % d;
    assert d * x + l == d * (x + a) + b;
    ModIs(d * x + l, d, x + a, b);
  }

  lemma Parity(x: nat, a: nat)
    ensures (2 * x + a) % 2 == a % 2
  {
  }

  lemma Associate(d: nat, e: nat, h: nat)
    ensures d * (2 * e) * h == d * (2 * (e * h))
  {
    assert 2 * e * h == 2 * (e * h);
  }

  lemma LowBit(c: nat, p: nat)
    requires p < 16
    ensures Bit(c % 0x1_0000, p) == Bit(c, p)
  {
    hide Pow2;
    Powers();
    Pow2Add(p, 16 - p);
    Doubling(15 - p);
    var d, e, h := Pow2(p), Pow2(15 - p), c / 0x1_0000;
    Associate(d, e, h);
    ShiftSum(d, 2 * (e * h), c % 0x1_0000);
    Parity(e * h, c % 0x1_0000 / d);
  }

  lemma HalvesJoin(c: nat)
    ensures Or(c % 0x1_0000, c / 0x1_0000 * 0x1_0000) == c
  {
    hide Or, Pow2;
    Powers();
    OrDisjoint(c % 0x1_0000, c / 0x1_0000, 16);
  }

  /** Four little-endian bytes are two halves. */
  lemma FourBytes(v: nat)
    requires v < 0x1_0000_0000
    ensures FixedBytes(v, 4) == FixedBytes(v % 0x1_0000, 2) + FixedBytes(v / 0x1_0000, 2)
  {
    hide Little;
    assert Pow256(4) == 0x1_0000_0000;
    Pow256Values();
    var h, l := v / 0x1_0000, v % 0x1_0000;
    Small(v, 4);
    Small(h, 2);
    Small(l, 2);
    LittleFour(v);
    LittleTwo(l);
    LittleTwo(h);
    SplitBytes(h, l / 256, l % 256);
  }

  lemma SplitBytes(h: nat, b: nat, a: nat)
    requires a < 256 && b < 256
    ensures var v := 0x1_0000 * h + 256 * b + a;
      v % 256 == a && v / 256 % 256 == b && v / 256 / 256 == h
  {
    ModIs(0x1_0000 * h + 256 * b + a, 256, 256 * h + b, a);
    ModIs(256 * h + b, 256, h, b);
  }

  lemma LittleTwo(v: nat)
    ensures Little(v, 2) == [v % 256, v / 256 % 256]
  {
    assert Little(v, 2) == [v % 256] + Little(v / 256, 1);
    OneByte(v / 256);
  }

  lemma LittleFour(v: nat)
    ensures Little(v, 4) == [v % 256, v / 256 % 256, v / 256 / 256 % 256, v / 256 / 256 / 256 % 256]
  {
    assert Little(v, 4) == [v % 256] + Little(v / 256, 3);
    assert Little(v / 256, 3) == [v / 256 % 256] + Little(v / 256 / 256, 2);
    LittleTwo(v / 256 / 256);
  }

  // ----- the round trip ----------------------------------------------------------------

  lemma AuthTrip(g: Greeting, caps: nat, rest: seq<Byte>)
    requires SendableLogin(g, caps)
    ensures TakeAuth(Encode(AuthItems(g, caps)) + rest, g.caps, caps) == Some((g.auth, rest))
  {
    hide Shared, TakeVarStr, TakeNulStr, FixedBytes, TakeFixed;
    if Shared(g.caps, caps, AUTH_DATA_VARINT) {
      EncodeOne(VarStr(g.auth));
      VarStrTrip(g.auth, rest);
    } else if Shared(g.caps, caps, SECURE_CONNECTION) {
      EncodeTwo(Fixed(1, |g.auth|), Str(g.auth));
      assert Encode(AuthItems(g, caps)) + rest == FixedBytes(|g.auth|, 1) + (g.auth + rest);
      OneFlag(|g.auth|, g.auth + rest);
      StrTrip(g.auth, rest);
    } else {
      EncodeOne(NulStr(g.auth));
      NulStrTrip(g.auth, rest);
    }
  }

  lemma SchemaTrip(g: Greeting, caps: nat, rest: seq<Byte>)
    requires SendableLogin(g, caps)
    ensures TakeSchema(Encode(SchemaItems(g, caps)) + rest, g.caps, caps)
         == Some((Kept(g.schema, Shared(g.caps, caps, CONNECT_WITH_SCHEMA)), rest))
  {
    hide Shared, TakeNulStr;
    if Shared(g.caps, caps, CONNECT_WITH_SCHEMA) {
      EncodeOne(NulStr(g.schema));
      NulStrTrip(g.schema, rest);
    } else {
      assert Encode([]) + rest == rest;
    }
  }

  lemma AttributesTrip(g: Greeting, caps: nat)
    requires SendableLogin(g, caps)
    ensures TakeAttributes(Encode(AttributeItems(g, caps)), g.caps, caps)
         == Some((Kept(g.attributes, Shared(g.caps, caps, CONNECT_ATTRIBUTES)), []))
    ensures Shared(g.caps, caps, CONNECT_ATTRIBUTES) <==> Encode(AttributeItems(g, caps)) != []
  {
    hide Shared, TakeVarStr, VarBytes;
    if Shared(g.caps, caps, CONNECT_ATTRIBUTES) {
      EncodeOne(VarStr(g.attributes));
      VarStrTrip(g.attributes, []);
      assert Bytes(VarStr(g.attributes)) + [] == Bytes(VarStr(g.attributes));
      SomeBytes(|g.attributes|);
    }
  }

  lemma SomeBytes(v: nat)
    ensures VarBytes(v) != []
  {
    OneFixed(v);
  }

  lemma MethodTrip(g: Greeting, caps: nat)
    requires SendableLogin(g, caps)
    ensures var rest := Encode(AttributeItems(g, caps));
      TakeMethod(Encode(MethodItems(g, caps)) + rest, g.caps, caps)
      == Some((Kept(g.authMethod, Shared(g.caps, caps, PLUGIN_AUTH)), rest))
  {
    hide Shared, TakeNulStr, AttributeItems;
    var rest := Encode(AttributeItems(g, caps));
    AttributesTrip(g, caps);
    if MethodItems(g, caps) != [] {
      EncodeOne(NulStr(g.authMethod));
      NulStrTrip(g.authMethod, rest);
      assert |Bytes(NulStr(g.authMethod))| > 0;
    } else {
      assert Encode([]) + rest == rest;
    }
  }

  lemma LoginBytes(g: Greeting, caps: nat)
    ensures Encode(LoginItems(g, caps)) == Bytes(NulStr(g.username))
      + (Encode(AuthItems(g, caps))
         + (Encode(SchemaItems(g, caps)) + (Encode(MethodItems(g, caps)) + Encode(AttributeItems(g, caps)))))
  {
    hide AuthItems, SchemaItems, MethodItems, AttributeItems, Bytes, Encode;
    var u, a, s := [NulStr(g.username)], AuthItems(g, caps), SchemaItems(g, caps);
    var m, t := MethodItems(g, caps), AttributeItems(g, caps);
    EncodeConcat(u + a + s + m, t);
    EncodeConcat(u + a + s, m);
    EncodeConcat(u + a, s);
    EncodeConcat(u, a);
    EncodeOne(NulStr(g.username));
    Regroup(Bytes(NulStr(g.username)), Encode(a), Encode(s), Encode(m), Encode(t));
  }

  /** Everything behind the fixed part of the 4.1 form. */
  lemma LoginTrip(g: Greeting, caps: nat)
    requires SendableLogin(g, caps) && NulFree(g.username)
    ensures var s := Encode(LoginItems(g, caps));
      var u := TakeNulStr(s);
      u.Some? && u.value.0 == g.username
      && TakeLogin(u.value.1, Greeting(g.caps, g.maxPacket, g.collation, g.username, [], [], [], []), caps)
         == Some(g.(schema := Kept(g.schema, Shared(g.caps, caps, CONNECT_WITH_SCHEMA)),
                    authMethod := Kept(g.authMethod, Shared(g.caps, caps, PLUGIN_AUTH)),
                    attributes := Kept(g.attributes, Shared(g.caps, caps, CONNECT_ATTRIBUTES))))
  {
    hide AuthItems, SchemaItems, MethodItems, AttributeItems, LoginItems, Bytes, Encode, TakeNulStr, TakeAuth,
      TakeSchema, TakeMethod, TakeAttributes, Shared, Kept, SendableLogin;
    LoginBytes(g, caps);
    var m, t := Encode(MethodItems(g, caps)), Encode(AttributeItems(g, caps));
    var s := Encode(SchemaItems(g, caps));
    NulStrTrip(g.username, Encode(AuthItems(g, caps)) + (s + (m + t)));
    AuthTrip(g, caps, s + (m + t));
    SchemaTrip(g, caps, m + t);
    MethodTrip(g, caps);
    AttributesTrip(g, caps);
  }

  lemma EncodeFour(a: Item, b: Item, c: Item, d: Item)
    ensures Encode([a, b, c, d]) == Bytes(a) + (Bytes(b) + (Bytes(c) + Bytes(d)))
  {
    hide Bytes;
    EncodeConcat([a, b], [c, d]);
    EncodeTwo(a, b);
    EncodeTwo(c, d);
    assert [a, b] + [c, d] == [a, b, c, d];
  }

  lemma FixedOf(v: nat, n: nat, rest: seq<Byte>)
    requires v < Pow256(n)
    ensures TakeFixed(FixedBytes(v, n) + rest, n) == Some((v, rest))
  {
    Small(v, n);
    FixedTrip(v, n, rest);
  }

  /** The fixed part of the 4.1 form. */
  lemma HeadBytes(g: Greeting, rest: seq<Byte>)
    requires g.caps < 0x1_0000_0000
    ensures Encode([Fixed(4, g.caps), Fixed(4, g.maxPacket), Fixed(1, g.collation), Str(Zeros(23))]) + rest
         == FixedBytes(g.caps % 0x1_0000, 2) + (FixedBytes(g.caps / 0x1_0000, 2) + (FixedBytes(g.maxPacket, 4)
            + (FixedBytes(g.collation, 1) + (Zeros(23) + rest))))
  {
    hide FixedBytes, Encode, Zeros;
    EncodeFour(Fixed(4, g.caps), Fixed(4, g.maxPacket), Fixed(1, g.collation), Str(Zeros(23)));
    FourBytes(g.caps);
  }

  lemma HeadTrip(g: Greeting, caps: nat, rest: seq<Byte>)
    requires g.caps < 0x1_0000_0000 && g.maxPacket < 0x1_0000_0000 && g.collation < 256
    requires Shared(g.caps, caps, PROTOCOL_41)
    ensures var s := Encode([Fixed(4, g.caps), Fixed(4, g.maxPacket), Fixed(1, g.collation), Str(Zeros(23))]) + rest;
      DecodeGreeting(s, caps) ==
        var h := Greeting(g.caps, g.maxPacket, g.collation, [], [], [], [], []);
        var username := TakeNulStr(rest);
        if username.None? then (if Shared(g.caps, caps, SSL) then Some(h) else None)
        else TakeLogin(username.value.1, h.(username := username.value.0), caps)
  {
    hide FixedBytes, Encode, Zeros, TakeFixed, TakeStr, TakeNulStr, TakeLogin, Bit, Or;
    HeadBytes(g, rest);
    Pow256Values();
    FourPower();
    var low, high := g.caps % 0x1_0000, g.caps / 0x1_0000;
    var r3 := Zeros(23) + rest;
    var r2 := FixedBytes(g.collation, 1) + r3;
    var r1 := FixedBytes(g.maxPacket, 4) + r2;
    FixedOf(low, 2, FixedBytes(high, 2) + r1);
    FixedOf(high, 2, r1);
    FixedOf(g.maxPacket, 4, r2);
    FixedOf(g.collation, 1, r3);
    StrTrip(Zeros(23), rest);
    LowBit(g.caps, PROTOCOL_41);
    HalvesJoin(g.caps);
  }

  lemma FourPower()
    ensures Pow256(4) == 0x1_0000_0000
  {
  }

  lemma OldBytes(g: Greeting, tail: seq<Item>)
    ensures Encode([Fixed(2, g.caps), Fixed(3, g.maxPacket), NulStr(g.username)] + tail)
         == FixedBytes(g.caps, 2) + (FixedBytes(g.maxPacket, 3) + (Bytes(NulStr(g.username)) + Encode(tail)))
  {
    hide FixedBytes, Encode;
    var a, b, u := Fixed(2, g.caps), Fixed(3, g.maxPacket), NulStr(g.username);
    EncodeConcat([a, b, u], tail);
    EncodeConcat([a, b], [u]);
    assert [a, b] + [u] == [a, b, u];
    EncodeTwo(a, b);
    EncodeOne(u);
  }

  /** The form before 4.1 comes back with the fields it has. */
  lemma OldTrip(g: Greeting, caps: nat)
    requires SendableGreeting(g, caps) && !Shared(g.caps, caps, PROTOCOL_41)
    ensures DecodeGreeting(Encode(GreetingItems(g, caps)), caps) == Some(CarriedGreeting(g, caps))
  {
    hide FixedBytes, TakeFixed, TakeNulStr, Bit, TakeStr;
    var tail := if Shared(g.caps, caps, CONNECT_WITH_SCHEMA) then [NulStr(g.auth), Str(g.schema)] else [Str(g.auth)];
    OldBytes(g, tail);
    Pow256Values();
    var low, packet := g.caps % 0x1_0000, g.maxPacket % 0x100_0000;
    var r2 := Encode(tail);
    var r1 := Bytes(NulStr(g.username)) + r2;
    FixedTrip(g.caps, 2, FixedBytes(g.maxPacket, 3) + r1);
    FixedTrip(g.maxPacket, 3, r1);
    NulStrTrip(g.username, r2);
    LowBit(g.caps, PROTOCOL_41);
    LowBit(g.caps, CONNECT_WITH_SCHEMA);
    if Shared(g.caps, caps, CONNECT_WITH_SCHEMA) {
      EncodeTwo(NulStr(g.auth), Str(g.schema));
      NulStrTrip(g.auth, g.schema);
    } else {
      EncodeOne(Str(g.auth));
    }
  }

  /**
   * Round trip for every pair of capability sets: the short TLS form, the three ways to send the
   * authentication data, the method name that may be left out and the form before protocol 4.1.
   */
  lemma GreetingTrip(g: Greeting, caps: nat)
    requires SendableGreeting(g, caps)
    ensures DecodeGreeting(Encode(GreetingItems(g, caps)), caps) == Some(CarriedGreeting(g, caps))
  {
    hide FixedBytes, TakeFixed, TakeNulStr, Bit, TakeStr, TakeLogin, DecodeGreeting, LoginItems, SendableLogin, Zeros;
    if !Shared(g.caps, caps, PROTOCOL_41) {
      OldTrip(g, caps);
    } else {
      var head := [Fixed(4, g.caps), Fixed(4, g.maxPacket), Fixed(1, g.collation), Str(Zeros(23))];
      var tail := if IsShort(g, caps) then [] else LoginItems(g, caps);
      EncodeConcat(head, tail);
      HeadTrip(g, caps, Encode(tail));
      if IsShort(g, caps) {
        NoUsername();
      } else {
        LoginTrip(g, caps);
      }
    }
  }

  lemma NoUsername()
    ensures TakeNulStr(Encode([])).None?
  {
  }
}
