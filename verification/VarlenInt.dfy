/**
 * byte_span_inserters.hpp and byte_span_extractors.hpp: fixed, packed and variable-length integers.
 * Shifts and the bit operators are written out on natural numbers.
 */
module VarlenInt {
  import opened Prelude

  const U64: nat := 0x1_0000_0000_0000_0000

  // ----- bits --------------------------------------------------------------------------

  function Pow2(k: nat): (p: nat)
    ensures p > 0
  {
    if k == 0 then 1 else 2 * Pow2(k - 1)
  }

  function ShiftLeft(v: nat, k: nat): nat {
    v * Pow2(k)
  }

  function ShiftRight(v: nat, k: nat): nat {
    Quotient(v, Pow2(k));
    v / Pow2(k)
  }

  lemma Quotient(a: nat, b: nat)
    requires b > 0
    ensures a / b >= 0
  {
  }

  function Or(a: nat, b: nat): nat {
    if a == 0 && b == 0 then 0
    else (if a % 2 == 1 || b % 2 == 1 then 1 else 0) + 2 * Or(a / 2, b / 2)
  }

  function Xor(a: nat, b: nat): nat {
    if a == 0 && b == 0 then 0
    else (if a % 2 != b % 2 then 1 else 0) + 2 * Xor(a / 2, b / 2)
  }

  /** std::bit_width. */
  function BitWidth(v: nat): nat {
    if v == 0 then 0 else 1 + BitWidth(v / 2)
  }

  /** std::countr_one. */
  function TrailingOnes(v: nat): nat {
    if v % 2 == 1 then 1 + TrailingOnes(v / 2) else 0
  }

  lemma {:induction false} Pow2Add(a: nat, b: nat)
    ensures Pow2(a + b) == Pow2(a) * Pow2(b)
  {
    if a > 0 {
      Pow2Add(a - 1, b);
      Twice(Pow2(a - 1), Pow2(b));
    }
  }

  lemma Powers()
    ensures Pow2(8) == 256 && Pow2(9) == 512 && Pow2(16) == 0x1_0000 && Pow2(32) == 0x1_0000_0000 && Pow2(64) == U64
  {
    assert Pow2(4) == 16;
    Pow2Add(4, 4);
    Pow2Add(8, 8);
    Pow2Add(16, 16);
    Pow2Add(32, 32);
  }

  lemma {:induction false} OrDisjoint(a: nat, h: nat, k: nat)
    requires a < Pow2(k)
    ensures Or(a, Pow2(k) * h) == a + Pow2(k) * h
  {
    if k == 0 {
      OrZero(h);
    } else {
      var p := Pow2(k - 1);
      assert Pow2(k) * h == 2 * (p * h);
      OrDisjoint(a / 2, h, k - 1);
    }
  }

  lemma {:induction false} OrZero(b: nat)
    ensures Or(0, b) == b
  {
    if b > 0 { OrZero(b / 2); }
  }

  lemma {:induction false} XorOnes(v: nat, k: nat)
    requires v < Pow2(k)
    ensures Xor(v, Pow2(k) - 1) == Pow2(k) - 1 - v
  {
    if k > 0 {
      XorOnes(v / 2, k - 1);
      XorStep(v, Pow2(k - 1));
    }
  }

  lemma XorStep(v: nat, q: nat)
    requires q > 0
    ensures Xor(v, 2 * q - 1) == 1 - v % 2 + 2 * Xor(v / 2, q - 1)
  {
    assert (2 * q - 1) % 2 == 1 && (2 * q - 1) / 2 == q - 1;
  }

  lemma {:induction false} XorZero(v: nat)
    ensures Xor(v, 0) == v
  {
    if v > 0 { XorZero(v / 2); }
  }

  lemma {:induction false} BitWidthIff(v: nat, k: nat)
    ensures BitWidth(v) <= k <==> v < Pow2(k)
  {
    if v > 0 && k > 0 { BitWidthIff(v / 2, k - 1); }
  }

  lemma {:induction false} OnesThenZero(k: nat, h: nat)
    ensures TrailingOnes(Pow2(k) - 1 + 2 * (Pow2(k) * h)) == k
  {
    if k > 0 {
      OnesThenZero(k - 1, h);
      hide Pow2, TrailingOnes;
      Doubling(k - 1);
      Twice(Pow2(k - 1), h);
      OneMoreOne(Pow2(k - 1), Pow2(k - 1) * h);
    } else {
      PowZero();
    }
  }

  lemma OneMoreOne(q: nat, t: nat)
    requires q > 0
    ensures TrailingOnes(2 * q - 1 + 4 * t) == 1 + TrailingOnes(q - 1 + 2 * t)
  {
    var v := 2 * q - 1 + 4 * t;
    assert v % 2 == 1 && v / 2 == q - 1 + 2 * t;
  }

  // ----- fixed length ------------------------------------------------------------------

  function Little(v: nat, n: nat): (s: seq<Byte>)
    ensures |s| == n
  {
    if n == 0 then [] else [v % 256] + Little(v / 256, n - 1)
  }

  function FromLittle(s: seq<Byte>): nat {
    if s == [] then 0 else s[0] + 256 * FromLittle(s[1..])
  }

  function Pow256(n: nat): (p: nat)
    ensures p > 0
  {
    if n == 0 then 1 else 256 * Pow256(n - 1)
  }

  lemma {:induction false} LittleRoundTrip(v: nat, n: nat)
    ensures FromLittle(Little(v, n)) == v % Pow256(n)
  {
    if n > 0 {
      LittleRoundTrip(v / 256, n - 1);
      SplitMod(v, Pow256(n - 1));
    }
  }

  lemma SplitMod(v: nat, p: nat)
    requires p > 0
    ensures v % (256 * p) == v % 256 + 256 * (v / 256 % p)
  {
    var q, r := v / 256, v % 256;
    var a, b := q / p, q % p;
    assert v == 256 * p * a + (256 * b + r);
    ModIs(v, 256 * p, a, 256 * b + r);
  }

  lemma ModIs(v: nat, m: nat, a: nat, r: nat)
    requires m > 0 && v == m * a + r && r < m
    ensures v % m == r && v / m == a
  {
    var d := v / m - a;
    assert v == m * (v / m) + v % m;
    assert m * d == r - v % m;
    assert d > 0 ==> m * d >= m;
    assert d < 0 ==> m * d <= 0 - m;
  }

  lemma {:induction false} FromLittleBound(s: seq<Byte>)
    ensures FromLittle(s) < Pow256(|s|)
  {
    if s != [] { FromLittleBound(s[1..]); }
  }

  // ----- variable length ---------------------------------------------------------------

  /** calculate_varlen_int_size. */
  function VarlenSize(v: nat): nat {
    BitWidth(v) * 575 / 4096 + 1
  }

  /** The number of values that n bytes can hold. */
  function Capacity(n: nat): nat {
    if n >= 9 then U64 else Pow2(7 * n)
  }

  lemma SizeOfWidth(w: nat, n: nat)
    requires w <= 64 && 1 <= n <= 9
    ensures w * 575 / 4096 + 1 == n <==> (if n == 1 then 0 else 7 * n - 6) <= w <= (if n == 9 then 64 else 7 * n)
  {
  }

  /** The formula gives the least number of bytes that holds the value. */
  lemma VarlenSizeIsLeast(v: nat)
    requires v < U64
    ensures 1 <= VarlenSize(v) <= 9 && v < Capacity(VarlenSize(v))
    ensures forall n :: 1 <= n < VarlenSize(v) ==> v >= Capacity(n)
  {
    hide BitWidth;
    Powers();
    BitWidthIff(v, 64);
    var n := VarlenSize(v);
    SizeOfWidth(BitWidth(v), n);
    if n < 9 { BitWidthIff(v, 7 * n); }
    forall m | 1 <= m < n ensures v >= Capacity(m) {
      SizeOfWidth(BitWidth(v), m);
      BitWidthIff(v, 7 * m);
    }
  }

  /** The first byte of insert_varlen_int_to_byte_span_checked: n - 1 ones, a zero, low bits of the value. */
  function FirstByte(v: nat, n: nat): Byte
    requires 1 <= n
  {
    Or(Pow2(n - 1) - 1, ShiftLeft(v, n) % U64) % 256
  }

  /** The bits of the value that the first byte does not carry. */
  function HighBits(v: nat, n: nat): nat {
    if n < 8 then ShiftRight(v, 8 - n) else v
  }

  /** The bytes insert_varlen_int_to_byte_span_checked writes. */
  function EncodeVarlen(v: nat): (s: seq<Byte>)
    requires v < U64
  {
    var n := VarlenSize(v);
    [FirstByte(v, n)] + if n == 1 then [] else Little(HighBits(v, n), n - 1)
  }

  /** The high bits back in their place. */
  function Raised(v: nat, n: nat): nat {
    if n < 8 then ShiftLeft(v, 8 - n) else v
  }

  /** extract_varlen_int_from_byte_span_checked for an unsigned type with the given maximum. */
  function DecodeVarlen(s: seq<Byte>, max: nat): (r: Option<(nat, seq<Byte>)>) {
    if s == [] then None
    else
      var n := TrailingOnes(s[0]) + 1;
      if n > |s| then None
      else if n == 1 then Some((ShiftRight(s[0], n), s[1..]))
      else
        var tmp := Raised(FromLittle(s[1..n]), n);
        if tmp > max then None else Some((Or(ShiftRight(s[0], n), tmp), s[n..]))
  }

  // ----- the first byte ----------------------------------------------------------------

  lemma ShiftLow(v: nat, p: nat, q: nat)
    requires p > 0 && q > 0 && p * q == 256
    ensures v * p % 256 == p * (v % q)
  {
    var a, b := v / q, v % q;
    Spread(p, q, a, b);
    BelowProduct(p, q, b);
    ModIs(v * p, 256, a, p * b);
  }

  lemma Spread(p: nat, q: nat, a: nat, b: nat)
    ensures (q * a + b) * p == p * q * a + p * b
  {
    assert (q * a + b) * p == q * a * p + b * p;
    assert q * a * p == p * q * a;
  }

  lemma BelowProduct(p: nat, q: nat, b: nat)
    requires b < q
    ensures p * b + p <= p * q
  {
    var d := q - 1 - b;
    assert p * q == p * (b + 1 + d) == p * b + p + p * d;
  }

  lemma MultipleOf(v: nat, p: nat)
    requires p > 0
    ensures v * p % p == 0
  {
    ModIs(v * p, p, v, 0);
  }

  /** Shifting left in 64 bits and cutting to a byte keeps the low bits. */
  lemma ShiftedLow(v: nat, n: nat)
    requires 1 <= n <= 9
    ensures ShiftLeft(v, n) % U64 % 256 == if n == 9 then 0 else Pow2(n) * (v % Pow2(8 - n))
    ensures ShiftLeft(v, n) % U64 % Pow2(n) == 0
  {
    hide Pow2;
    Powers();
    Pow2Add(n, 64 - n);
    var p, x := Pow2(n), v * Pow2(n);
    ModMod(x, 256, U64 / 256);
    ModMod(x, p, Pow2(64 - n));
    MultipleOf(v, p);
    if n <= 8 {
      Pow2Add(n, 8 - n);
      ShiftLow(v, p, Pow2(8 - n));
    } else {
      assert x == 2 * v * 256;
      MultipleOf(2 * v, 256);
    }
  }

  lemma ModMod(x: nat, m: nat, k: nat)
    requires m > 0 && k > 0
    ensures x % (m * k) % m == x % m
  {
    var a, r := x / (m * k), x % (m * k);
    var b, c := r / m, r % m;
    Gather(m, k, a, b);
    ModIs(x, m, k * a + b, c);
  }

  lemma Gather(m: nat, k: nat, a: nat, b: nat)
    ensures m * k * a + m * b == m * (k * a + b)
  {
    assert m * (k * a) == m * k * a;
  }

  /** The bits of the value that the first byte carries. */
  function LowBits(v: nat, n: nat): nat {
    if n >= 9 then 0 else v % Pow2(8 - n)
  }

  lemma LowFits(v: nat, n: nat)
    requires 1 <= n <= 9
    ensures Pow2(n - 1) - 1 + Pow2(n) * LowBits(v, n) < 256
  {
    hide Pow2;
    Powers();
    assert Pow2(n) == 2 * Pow2(n - 1) by { Doubling(n - 1); }
    if n <= 8 {
      Pow2Add(n, 8 - n);
      BelowProduct(Pow2(n), Pow2(8 - n), LowBits(v, n));
    }
  }

  lemma Doubling(k: nat)
    ensures Pow2(k + 1) == 2 * Pow2(k)
  {
  }

  /** The or of the ones and of the shifted value is their sum. */
  lemma FirstByteIs(v: nat, n: nat)
    requires 1 <= n <= 9
    ensures FirstByte(v, n) == Pow2(n - 1) - 1 + Pow2(n) * LowBits(v, n)
  {
    hide Pow2, Or;
    var a, x := Pow2(n - 1) - 1, ShiftLeft(v, n) % U64;
    ShiftedLow(v, n);
    hide ShiftLeft;
    Doubling(n - 1);
    OrSum(a, x, n - 1);
    LowFits(v, n);
    AddLow(a, x);
  }

  lemma OrSum(a: nat, x: nat, k: nat)
    requires a < Pow2(k) && x % (2 * Pow2(k)) == 0
    ensures Or(a, x) == a + x
  {
    hide Pow2, Or;
    var h := x / (2 * Pow2(k));
    ExactQuotient(x, 2 * Pow2(k));
    Twice(Pow2(k), h);
    OrDisjoint(a, 2 * h, k);
  }

  lemma ExactQuotient(x: nat, m: nat)
    requires m > 0 && x % m == 0
    ensures x == m * (x / m)
  {
  }

  lemma Twice(p: nat, h: nat)
    ensures 2 * p * h == p * (2 * h) == 2 * (p * h)
  {
  }

  lemma AddLow(a: nat, x: nat)
    requires a + x % 256 < 256
    ensures (a + x) % 256 == a + x % 256
  {
  }

  /** The reader finds the size and the low bits in the first byte. */
  lemma FirstByteReads(v: nat, n: nat)
    requires 1 <= n <= 9
    ensures TrailingOnes(FirstByte(v, n)) == n - 1 && ShiftRight(FirstByte(v, n), n) == LowBits(v, n)
  {
    hide Pow2, TrailingOnes, FirstByte;
    var l := LowBits(v, n);
    FirstByteIs(v, n);
    Doubling(n - 1);
    OnesThenZero(n - 1, l);
    Twice(Pow2(n - 1), l);
    ModIs(FirstByte(v, n), Pow2(n), l, Pow2(n - 1) - 1);
  }

  lemma {:induction false} Pow256Is(n: nat)
    ensures Pow256(n) == Pow2(8 * n)
  {
    if n > 0 {
      Pow256Is(n - 1);
      Powers();
      Pow2Add(8, 8 * (n - 1));
    }
  }

  lemma DivBound(v: nat, q: nat, m: nat)
    requires q > 0 && v < m * q
    ensures v / q < m
  {
    var d := v / q;
    assert d * q <= v;
    assert d >= m ==> d * q >= m * q;
  }

  /** What the bytes after the first one hold. */
  lemma RestReads(v: nat, n: nat)
    requires 2 <= n <= 9 && v < Capacity(n)
    ensures FromLittle(Little(HighBits(v, n), n - 1)) == HighBits(v, n)
  {
    hide Pow2, Little, FromLittle, Pow256;
    Powers();
    Pow256Is(n - 1);
    if n < 8 {
      var q := Pow2(8 - n);
      Pow2Add(8 * (n - 1), 8 - n);
      DivBound(v, q, Pow256(n - 1));
      LittleRoundTrip(v / q, n - 1);
      ModIs(v / q, Pow256(n - 1), 0, v / q);
    } else {
      LittleRoundTrip(v, n - 1);
      ModIs(v, Pow256(n - 1), 0, v);
    }
  }

  /** Low bits and shifted high bits put together give the value back. */
  lemma JoinsBits(v: nat, n: nat)
    requires 2 <= n <= 9
    ensures Or(LowBits(v, n), Raised(HighBits(v, n), n)) == v
    ensures Raised(HighBits(v, n), n) <= v
  {
    hide Pow2, Or;
    if n < 8 {
      var q := Pow2(8 - n);
      OrDisjoint(v % q, v / q, 8 - n);
      assert q * (v / q) == v / q * q;
    } else {
      assert LowBits(v, n) == 0 by { assert Pow2(0) == 1 by { PowZero(); } }
      OrZero(v);
    }
  }

  lemma PowZero()
    ensures Pow2(0) == 1
  {
  }

  /** Reading what was written gives the value and the rest of the input, for every width that holds the value. */
  lemma VarlenRoundTrip(v: nat, max: nat, rest: seq<Byte>)
    requires v <= max < U64
    ensures |EncodeVarlen(v)| == VarlenSize(v)
    ensures DecodeVarlen(EncodeVarlen(v) + rest, max) == Some((v, rest))
  {
    hide Pow2, Or, Little, FromLittle, TrailingOnes, FirstByte, BitWidth, Capacity, HighBits, Raised, LowBits,
      ShiftRight;
    VarlenSizeIsLeast(v);
    var n := VarlenSize(v);
    var s := EncodeVarlen(v);
    FirstByteReads(v, n);
    assert (s + rest)[0] == s[0] && (s + rest)[n..] == rest;
    if n == 1 {
      SmallValue(v);
    } else {
      assert (s + rest)[1..n] == s[1..n] == Little(HighBits(v, n), n - 1);
      RestReads(v, n);
      JoinsBits(v, n);
    }
  }

  lemma SmallValue(v: nat)
    requires v < Capacity(1)
    ensures LowBits(v, 1) == v
  {
  }

  // ----- what can be read --------------------------------------------------------------

  lemma {:induction false} FewOnes(v: nat, k: nat)
    requires v < Pow2(k)
    ensures TrailingOnes(v) <= k
  {
    if k > 0 && v % 2 == 1 { FewOnes(v / 2, k - 1); }
  }

  lemma ProductGrows(a: nat, b: nat, p: nat)
    requires a <= b
    ensures a * p <= b * p
  {
    var d := b - a;
    assert b * p == a * p + d * p;
  }

  /** The low bits of the first byte and the multiple that they complete stay below a power of two. */
  lemma LowAndHigh(a: nat, x: nat, n: nat, k: nat)
    requires n < 8 <= k && a < Pow2(8 - n) && x * Pow2(8 - n) < Pow2(k)
    ensures Or(a, x * Pow2(8 - n)) < Pow2(k)
  {
    hide Or, Pow2;
    var p, q := Pow2(8 - n), Pow2(k - 8 + n);
    Pow2Add(8 - n, k - 8 + n);
    OrDisjoint(a, x, 8 - n);
    if x >= q { ProductGrows(q, x, p); }
    BelowProduct(p, q, x);
  }

  lemma ShiftedByte(v: Byte, n: nat)
    requires n <= 9
    ensures ShiftRight(v, n) < if n < 8 then Pow2(8 - n) else 1
  {
    hide Pow2;
    Powers();
    if n < 8 {
      Pow2Add(8 - n, n);
      DivBound(v, Pow2(n), Pow2(8 - n));
    } else {
      DivBound(v, Pow2(n), 1);
    }
  }

  lemma AtLeastByte(k: nat)
    requires k >= 8
    ensures Pow2(k) >= 256
  {
    hide Pow2;
    Powers();
    Pow2Add(8, k - 8);
    ProductGrows(1, Pow2(k - 8), 256);
  }

  /** A value that is read fits the type it is read into. */
  lemma DecodeWithin(s: seq<Byte>, k: nat)
    requires k >= 8 && DecodeVarlen(s, Pow2(k) - 1).Some?
    ensures DecodeVarlen(s, Pow2(k) - 1).value.0 < Pow2(k)
  {
    hide Pow2, Or, FromLittle, TrailingOnes, ShiftRight;
    var n := TrailingOnes(s[0]) + 1;
    Powers();
    FewOnes(s[0], 8);
    ShiftedByte(s[0], n);
    if n == 1 {
      AtLeastByte(k);
      Doubling(7);
    } else if n < 8 {
      LowAndHigh(ShiftRight(s[0], n), FromLittle(s[1..n]), n, k);
    } else {
      OrZero(FromLittle(s[1..n]));
    }
  }

  // ----- signed ------------------------------------------------------------------------

  predicate Signed(v: int, w: nat)
    requires w > 0
  {
    0 - Pow2(w - 1) <= v < Pow2(w - 1)
  }

  /** get_signed_representation_as_unsigned for a type of w bits. */
  function ZigZag(v: int, w: nat): nat
    requires w > 0 && Signed(v, w)
  {
    var mask := if v < 0 then Pow2(w) - 1 else 0;
    var unsigned := if v < 0 then v + Pow2(w) else v;
    Or(Xor(unsigned, mask) * 2 % Pow2(w), mask % 2)
  }

  /** The end of the signed extractor. */
  function UnZigZag(d: nat, w: nat): int
    requires w > 0
  {
    var mask := if d % 2 != 0 then Pow2(w) - 1 else 0;
    var x := Xor(d / 2, mask);
    if x >= Pow2(w - 1) then x - Pow2(w) else x
  }

  lemma {:induction false} OrNothing(x: nat)
    ensures Or(x, 0) == x
  {
    if x > 0 { OrNothing(x / 2); }
  }

  lemma OrOne(x: nat)
    ensures Or(2 * x, 1) == 2 * x + 1
  {
    OrNothing(x);
  }

  /** Zero and positive values become even numbers, negative ones odd numbers. */
  lemma ZigZagIs(v: int, w: nat)
    requires w > 0 && Signed(v, w)
    ensures ZigZag(v, w) == (if v < 0 then -2 * v - 1 else 2 * v) < Pow2(w)
  {
    hide Or, Xor, Pow2;
    Doubling(w - 1);
    var p := Pow2(w);
    if v < 0 {
      XorOnes(v + p, w);
      ModIs((-v - 1) * 2, p, 0, (-v - 1) * 2);
      OrOne(-v - 1);
      ModIs(p - 1, 2, Pow2(w - 1) - 1, 1);
    } else {
      XorZero(v);
      ModIs(v * 2, p, 0, v * 2);
      OrNothing(2 * v);
    }
  }

  lemma ZigZagRoundTrip(v: int, w: nat)
    requires w > 0 && Signed(v, w)
    ensures UnZigZag(ZigZag(v, w), w) == v
  {
    hide Or, Xor, ZigZag;
    ZigZagIs(v, w);
    if v < 0 {
      assert ZigZag(v, w) / 2 == -v - 1;
      XorOnes(-v - 1, w);
    } else {
      XorZero(v);
    }
  }

  lemma UnZigZagSigned(d: nat, w: nat)
    requires w > 0 && d < Pow2(w)
    ensures Signed(UnZigZag(d, w), w)
  {
    hide Xor, Pow2;
    Doubling(w - 1);
    if d % 2 != 0 { XorOnes(d / 2, w); } else { XorZero(d / 2); }
  }

  function EncodeSigned(v: int, w: nat): seq<Byte>
    requires 0 < w <= 64 && Signed(v, w)
  {
    WidthFits(v, w);
    EncodeVarlen(ZigZag(v, w))
  }

  lemma WidthFits(v: int, w: nat)
    requires 0 < w <= 64 && Signed(v, w)
    ensures ZigZag(v, w) < Pow2(w) <= U64
  {
    hide ZigZag, Pow2;
    ZigZagIs(v, w);
    Powers();
    Pow2Add(w, 64 - w);
    assert Pow2(w) * Pow2(64 - w) >= Pow2(w);
  }

  function DecodeSigned(s: seq<Byte>, w: nat): Option<(int, seq<Byte>)>
    requires w > 0
  {
    var r := DecodeVarlen(s, Pow2(w) - 1);
    if r.None? then None else Some((UnZigZag(r.value.0, w), r.value.1))
  }

  /** Every signed value of every width comes back, the minimum included. */
  lemma SignedRoundTrip(v: int, w: nat, rest: seq<Byte>)
    requires 0 < w <= 64 && Signed(v, w)
    ensures DecodeSigned(EncodeSigned(v, w) + rest, w) == Some((v, rest))
  {
    hide ZigZag, UnZigZag, EncodeVarlen, DecodeVarlen, Pow2;
    WidthFits(v, w);
    VarlenRoundTrip(ZigZag(v, w), Pow2(w) - 1, rest);
    ZigZagRoundTrip(v, w);
  }

  // ----- packed ------------------------------------------------------------------------

  /** insert_packed_int_to_byte_span_checked. */
  function EncodePacked(v: nat): (s: seq<Byte>)
    requires v < U64
  {
    if v < 251 then Little(v, 1)
    else if v < 0x1_0000 then [252] + Little(v, 2)
    else if v < 0x100_0000 then [253] + Little(v, 3)
    else [254] + Little(v, 8)
  }

  /** calculate_packed_int_size. */
  function PackedSize(v: nat): nat {
    if v < 251 then 1 else if v < 0x1_0000 then 3 else if v < 0x100_0000 then 4 else 9
  }

  /** extract_packed_int_from_byte_span_checked: 251 stands for the maximum, 255 is refused. */
  function DecodePacked(s: seq<Byte>): Option<(nat, seq<Byte>)> {
    if s == [] || s[0] == 255 then None
    else if s[0] < 251 then Some((s[0], s[1..]))
    else if s[0] == 251 then Some((U64 - 1, s[1..]))
    else
      var n := if s[0] == 252 then 2 else if s[0] == 253 then 3 else 8;
      if n > |s| - 1 then None else Some((FromLittle(s[1..n + 1]), s[n + 1..]))
  }

  lemma LittleValue(v: nat, n: nat)
    requires v < Pow256(n)
    ensures FromLittle(Little(v, n)) == v
  {
    LittleRoundTrip(v, n);
    ModIs(v, Pow256(n), 0, v);
  }

  lemma PackedRoundTrip(v: nat, rest: seq<Byte>)
    requires v < U64
    ensures |EncodePacked(v)| == PackedSize(v) && DecodePacked(EncodePacked(v) + rest) == Some((v, rest))
  {
    hide Little, FromLittle;
    var s := EncodePacked(v);
    Pow256Values();
    assert s[0] < 251 ==> (s + rest)[1..] == rest by { OneByte(v); }
    if v < 251 {
      OneByte(v);
    } else {
      var n := |s| - 1;
      LittleValue(v, n);
      assert (s + rest)[1..n + 1] == s[1..] == Little(v, n);
      assert (s + rest)[n + 1..] == rest;
    }
  }

  lemma OneByte(v: nat)
    ensures Little(v, 1) == [v % 256]
  {
    assert Little(v / 256, 0) == [];
  }

  lemma Pow256Values()
    ensures Pow256(1) == 256 && Pow256(2) == 0x1_0000 && Pow256(3) == 0x100_0000 && Pow256(8) == U64
  {
    assert Pow256(4) == 0x1_0000_0000;
    assert Pow256(8) == 256 * Pow256(7);
  }

  /** The writer never uses the two markers that are not plain values, so its output is never misread as one. */
  lemma PackedMarkers(v: nat)
    requires v < U64
    ensures EncodePacked(v) != [] && EncodePacked(v)[0] != 251 && EncodePacked(v)[0] != 255
  {
    OneByte(v);
  }
}
