/** The protobuf wire primitives of nanopb: base-128 varints, the lenient 32-bit
    varint reader, zigzag, little-endian fixed values and field keys.

    Every reader is a pure function from the bytes that are left to a value and the
    bytes left after it; `PbIStream` and `PbEncoder` hold the imperative versions that refine them. */
module PbWire {
  import opened Bits

  const M7: int := 128
  const M31: int := 0x8000_0000
  const M32: int := 0x1_0000_0000
  const M63: int := 0x8000_0000_0000_0000
  const M64: int := 0x1_0000_0000_0000_0000

  datatype Parse<+T> = Err | Ok(val: T, rest: seq<byte>)

  function Pow128(k: nat): (p: nat)
    ensures p >= 1
  {
    if k == 0 then 1 else 128 * Pow128(k - 1)
  }

  lemma Pow128Values()
    ensures Pow128(0) == 1 && Pow128(1) == 0x80 && Pow128(2) == 0x4000 && Pow128(3) == 0x20_0000
    ensures Pow128(4) == 0x1000_0000 && Pow128(5) == 0x8_0000_0000 && Pow128(6) == 0x400_0000_0000
    ensures Pow128(7) == 0x2_0000_0000_0000 && Pow128(8) == 0x100_0000_0000_0000
    ensures Pow128(9) == M63 && Pow128(10) == 64 * M64
  {
    assert Pow128(2) == 128 * Pow128(1);
    assert Pow128(4) == 128 * Pow128(3) && Pow128(3) == 128 * Pow128(2);
    assert Pow128(6) == 128 * Pow128(5) && Pow128(5) == 128 * Pow128(4);
    assert Pow128(8) == 128 * Pow128(7) && Pow128(7) == 128 * Pow128(6);
    assert Pow128(10) == 128 * Pow128(9) && Pow128(9) == 128 * Pow128(8);
  }

  // ---------------------------------------------------------------- varints

  /** The shortest base-128 form, least significant group first. */
  function Varint(v: nat): (s: seq<byte>)
    ensures |s| >= 1
    decreases v
  {
    if v < 128 then [v] else [v % 128 + 128] + Varint(v / 128)
  }

  lemma VarintStep(v: nat)
    ensures Varint(v) == if v < 128 then [v] else [v % 128 + 128] + Varint(v / 128)
  {}

  /** How a varint is taken apart, one group at a time. */
  lemma VarintUncons(v: nat, t: seq<byte>)
    ensures var s := Varint(v) + t;
      |s| > 0 && if v < 128 then s[0] == v && s[1..] == t
                 else s[0] == v % 128 + 128 && s[1..] == Varint(v / 128) + t
  {
    VarintStep(v);
    hide Varint;
    if v >= 128 {
      var more := Varint(v / 128);
      assert ([v % 128 + 128] + more + t)[1..] == more + t;
    }
  }

  lemma {:induction false} VarintLength(v: nat, k: nat)
    requires k >= 1
    ensures v < Pow128(k) <==> |Varint(v)| <= k
    decreases k
  {
    if k == 1 {
      assert Pow128(1) == 128 * Pow128(0);
      if v >= 128 { assert |Varint(v / 128)| >= 1; }
    } else if v < 128 {
    } else {
      VarintLength(v / 128, k - 1);
      assert v < 128 * Pow128(k - 1) <==> v / 128 < Pow128(k - 1);
    }
  }

  lemma Varint64Length(v: nat)
    requires v < M64
    ensures |Varint(v)| <= 10
  {
    Pow128Values();
    VarintLength(v, 10);
  }

  /** A terminated group sequence, read without any bound or truncation. */
  function RawVarint(s: seq<byte>): (p: Parse<nat>)
    ensures p.Ok? ==> |p.rest| < |s|
  {
    if s == [] then Err
    else if s[0] < 128 then Ok(s[0], s[1..])
    else
      match RawVarint(s[1..])
      case Err => Err
      case Ok(v, rest) => Ok(s[0] - 128 + 128 * v, rest)
  }

  /** pb_decode_varint: at most ten bytes, reduced to 64 bits. */
  function ReadVarint(s: seq<byte>): (p: Parse<nat>)
    ensures p.Ok? ==> p.val < M64 && |p.rest| < |s|
  {
    match RawVarint(s)
    case Err => Err
    case Ok(v, rest) => if |s| - |rest| <= 10 then Ok(v % M64, rest) else Err
  }

  lemma {:induction false} RawVarintInverts(v: nat, t: seq<byte>)
    ensures RawVarint(Varint(v) + t) == Ok(v, t)
    decreases v
  {
    hide Varint;
    VarintUncons(v, t);
    if v >= 128 { RawVarintInverts(v / 128, t); }
  }

  /** pb_decode_varint inverts pb_encode_varint on every 64-bit value. */
  lemma VarintInverts(v: nat, t: seq<byte>)
    requires v < M64
    ensures ReadVarint(Varint(v) + t) == Ok(v, t)
  {
    hide Varint, RawVarint;
    Varint64Length(v);
    RawVarintInverts(v, t);
  }

  /** What is read depends only on the bytes consumed. */
  lemma {:induction false} RawVarintPrefix(s: seq<byte>, t: seq<byte>)
    requires RawVarint(s).Ok?
    ensures RawVarint(s + t) == Ok(RawVarint(s).val, RawVarint(s).rest + t)
  {
    assert (s + t)[1..] == s[1..] + t;
    if s[0] >= 128 { RawVarintPrefix(s[1..], t); }
  }

  lemma ReadVarintPrefix(s: seq<byte>, t: seq<byte>)
    requires ReadVarint(s).Ok?
    ensures ReadVarint(s + t) == Ok(ReadVarint(s).val, ReadVarint(s).rest + t)
  {
    RawVarintPrefix(s, t);
  }

  /** The number that seven-bit groups make up, least significant first. */
  function Groups(b: seq<byte>): nat
  {
    if b == [] then 0 else b[0] % 128 + 128 * Groups(b[1..])
  }

  lemma {:induction false} RawVarintIs(s: seq<byte>, k: nat)
    requires k <= |s| && forall j :: 0 <= j < k ==> s[j] >= 128
    ensures k < |s| && s[k] < 128 ==> RawVarint(s) == Ok(Groups(s[..k + 1]), s[k + 1..])
    ensures RawVarint(s).Ok? ==> k < |s| - |RawVarint(s).rest|
  {
    if k == 0 {
      if s != [] { assert s[..1][1..] == []; }
    } else {
      RawVarintIs(s[1..], k - 1);
      if k < |s| { assert s[..k + 1][1..] == s[1..][..k] && s[1..][k..] == s[k + 1..]; }
    }
  }

  /** pb_decode_varint on arbitrary bytes: when the bytes before position k go on and the one there
      does not, k has to be below ten, and the groups count modulo 2^64. */
  lemma ReadVarintExactly(s: seq<byte>, k: nat)
    requires k <= |s| && forall j :: 0 <= j < k ==> s[j] >= 128
    ensures k == |s| || k >= 10 ==> ReadVarint(s) == Err
    ensures k < |s| && s[k] < 128 && k < 10 ==>
      ReadVarint(s) == Ok(Groups(s[..k + 1]) % 0x1_0000_0000_0000_0000, s[k + 1..])
  {
    hide RawVarint, Groups;
    RawVarintIs(s, k);
  }

  // ------------------------------------------------- the 32-bit varint reader

  /** bitpos is a uint_fast8_t, eight bits wide. */
  function NextBitpos(bitpos: nat): nat { (bitpos + 7) % 256 }

  function SignExtension(bitpos: nat): byte { if bitpos < 63 then 0xFF else 0x01 }

  /** `result | (uint32_t)(b & 0x7F) << bitpos`; above bit 31 nothing is stored. */
  function Or32(result: nat, b: byte, bitpos: nat): nat
  {
    if bitpos >= 32 then result else BitOr(result, (b % 128 * Pow2(bitpos)) % M32)
  }

  /** The bytes after the first one in pb_decode_varint32_eof. */
  function Varint32Tail(s: seq<byte>, bitpos: nat, result: nat): (p: Parse<nat>)
    ensures p.Ok? ==> |p.rest| < |s|
    decreases |s|
  {
    if s == [] then Err
    else
      var b := s[0];
      if bitpos >= 32 && b % 128 != 0 && (result < M31 || b != SignExtension(bitpos)) then Err
      else if b >= 128 then Varint32Tail(s[1..], NextBitpos(bitpos), Or32(result, b, bitpos))
      else if NextBitpos(bitpos) == 35 && b >= 16 then Err
      else Ok(Or32(result, b, bitpos), s[1..])
  }

  function ReadVarint32(s: seq<byte>): (p: Parse<nat>)
    ensures p.Ok? ==> |p.rest| < |s|
  {
    if s == [] then Err
    else if s[0] < 128 then Ok(s[0], s[1..])
    else Varint32Tail(s[1..], 7, s[0] - 128)
  }

  /** Group value `v` moved to bit 7k. */
  function Shift(v: nat, k: nat): nat { v * Pow128(k) }

  lemma ShiftValues(v: nat)
    ensures Shift(v, 1) == 128 * v && Shift(v, 4) == 0x1000_0000 * v
  {
    Pow128Values();
  }

  /** A value splits into its low group and the rest, at any position. */
  lemma GroupSplit(v: nat, k: nat)
    ensures Pow128(k + 1) == 128 * Pow128(k)
    ensures Shift(v, k) == Shift(v % 128, k) + Shift(v / 128, k + 1)
  {
    var p := Pow128(k);
    assert v == v % 128 + 128 * (v / 128);
    assert v * p == v % 128 * p + 128 * (v / 128) * p;
  }

  lemma GroupBound(g: nat, k: nat, result: nat)
    requires result < Pow128(k) && g < 128
    ensures 0 <= result + Shift(g, k) < Pow128(k + 1)
  {
    MulBound(g, 127, Pow128(k));
  }

  lemma Pow128Below35(k: nat)
    requires k <= 5
    ensures Pow128(k) <= 0x8_0000_0000
  {
    Pow128Values();
    assert k == 0 || k == 1 || k == 2 || k == 3 || k == 4 || k == 5;
  }

  lemma Pow128Below32(k: nat)
    requires k <= 4
    ensures Pow128(k) < M32
  {
    Pow128Values();
    assert k == 0 || k == 1 || k == 2 || k == 3 || k == 4;
  }

  lemma {:induction false} Pow2Groups(k: nat)
    ensures Pow2(7 * k) == Pow128(k)
  {
    if k > 0 {
      Pow2Groups(k - 1);
      var n := 7 * (k - 1);
      assert Pow2(n + 7) == 2 * Pow2(n + 6) == 4 * Pow2(n + 5) == 8 * Pow2(n + 4);
      assert Pow2(n + 4) == 2 * Pow2(n + 3) == 4 * Pow2(n + 2) == 8 * Pow2(n + 1) == 16 * Pow2(n);
    }
  }

  /** Shifting a group to bit 7k of a 32-bit word drops the top three bits when k is 4. */
  lemma ShiftedGroup(g: nat, k: nat)
    requires 1 <= k <= 4 && g < 128
    ensures Shift(g, k) % M32 == Shift(if k < 4 then g else g % 16, k)
  {
    hide Pow128, Shift;
    if k == 4 {
      FourthGroup(0, g);
    } else {
      GroupBound(g, k, 0);
      Pow128Below32(k + 1);
    }
  }

  lemma Or32Adds(result: nat, b: byte, k: nat)
    requires 1 <= k <= 4 && result < Pow128(k)
    ensures Or32(result, b, 7 * k) == result + Shift(if k < 4 then b % 128 else b % 128 % 16, k)
  {
    hide BitOr, Pow2, Pow128;
    var g := b % 128;
    Pow2Groups(k);
    ShiftedGroup(g, k);
    assert (b % 128 * Pow2(7 * k)) == Shift(g, k);
    BitOrDisjoint(result, if k < 4 then g else g % 16, 7 * k);
  }

  /** One continued group below bit 28 adds itself in. */
  lemma TailStep(v: nat, k: nat, result: nat, t: seq<byte>)
    requires 1 <= k <= 3 && v >= 128 && result < Pow128(k)
    ensures var result' := result + Shift(v % 128, k);
      && result' < Pow128(k + 1) && result + Shift(v, k) == result' + Shift(v / 128, k + 1)
      && Varint32Tail(Varint(v) + t, 7 * k, result) == Varint32Tail(Varint(v / 128) + t, 7 * (k + 1), result')
  {
    hide Or32, Pow128, Varint, Shift;
    VarintUncons(v, t);
    Or32Adds(result, (Varint(v) + t)[0], k);
    GroupSplit(v, k);
    GroupBound(v % 128, k, result);
  }

  /** Every group sequence for a value below 2^32 is read back exactly. */
  lemma {:induction false} TailExact(v: nat, k: nat, result: nat, t: seq<byte>)
    requires 1 <= k <= 4 && v > 0 && result < Pow128(k)
    requires result + Shift(v, k) < M32
    ensures Varint32Tail(Varint(v) + t, 7 * k, result) == Ok(result + Shift(v, k), t)
    decreases 4 - k
  {
    hide Or32, Pow128, Varint, Shift;
    assert k == 4 ==> v < 16 by { ShiftValues(v); }
    if v < 128 {
      VarintUncons(v, t);
      Or32Adds(result, v, k);
    } else {
      hide Varint32Tail;
      TailStep(v, k, result, t);
      TailExact(v / 128, k + 1, result + Shift(v % 128, k), t);
    }
  }

  /** Nothing from 2^32 up to 2^63 gets through. */
  lemma {:induction false} TailTooLarge(v: nat, k: nat, result: nat, t: seq<byte>)
    requires 1 <= k <= 8 && 0 < v < Pow128(9 - k)
    requires k <= 4 ==> result < Pow128(k) && result + Shift(v, k) >= M32
    ensures Varint32Tail(Varint(v) + t, 7 * k, result) == Err
    decreases 9 - k
  {
    hide Or32, Varint, Shift, Pow128;
    VarintUncons(v, t);
    if v < 128 {
      assert k == 4 ==> v >= 16 by {
        if k == 4 { ShiftValues(v); assert Pow128(4) == 0x1000_0000 by { Pow128Values(); } }
      }
      assert k >= 4 by {
        if k <= 3 { GroupBound(v, k, result); Pow128Below32(k + 1); }
      }
    } else {
      assert v / 128 < Pow128(8 - k) by { Pow128Divides(v, 9 - k); }
      if k <= 3 {
        hide Varint32Tail;
        TailStep(v, k, result, t);
        TailTooLarge(v / 128, k + 1, result + Shift(v % 128, k), t);
      } else {
        assert k < 8 by { if k == 8 { assert Pow128(1) == 128 by { Pow128Values(); } } }
        TailTooLarge(v / 128, k + 1, Or32(result, v % 128 + 128, 7 * k), t);
      }
    }
  }

  lemma Pow128Divides(v: nat, k: nat)
    requires k >= 1 && v < Pow128(k)
    ensures v / 128 < Pow128(k - 1)
  {
    assert Pow128(k) == 128 * Pow128(k - 1);
  }

  /** Groups that pad a number above bit 34: no bits, or all of them. */
  predicate Pads(g: nat) { g == 0 || g == 127 }

  /** The groups of `w`, of which the first is at bit 7k, are padding up to the last one. */
  predicate AllPad(w: nat, k: nat)
    decreases 9 - k
  {
    k >= 9 || (Pads(w % 128) && AllPad(w / 128, k + 1))
  }

  /** Above bit 34, a 64-bit varint of ten bytes is accepted just if bit 31 is set and its groups
      are padding; nothing is stored. */
  lemma {:induction false} TailHigh(w: nat, k: nat, result: nat, t: seq<byte>)
    requires 5 <= k <= 9 && Pow128(9 - k) <= w < 2 * Pow128(9 - k)
    ensures Varint32Tail(Varint(w) + t, 7 * k, result) == if result >= M31 && AllPad(w, k) then Ok(result, t) else Err
    decreases 9 - k
  {
    hide BitOr, Pow2, Varint, Pow128;
    VarintUncons(w, t);
    if k == 9 {
      assert Pow128(0) == 1 by { Pow128Values(); }
    } else {
      HighSplit(w, k);
      TailHigh(w / 128, k + 1, result, t);
    }
  }

  lemma HighSplit(w: nat, k: nat)
    requires 5 <= k < 9 && Pow128(9 - k) <= w < 2 * Pow128(9 - k)
    ensures w >= 128 && Pow128(8 - k) <= w / 128 < 2 * Pow128(8 - k)
  {
    assert Pow128(9 - k) == 128 * Pow128(8 - k);
  }

  /** Which numbers pb_decode_varint32 accepts from their shortest varints. Between bits 31 and
      35 of a long one anything may stand. */
  predicate Fits32(n: nat)
  {
    || n < M32
    || (n >= M63 && n % M32 >= M31 && Pads(n / 0x8_0000_0000 % 128) && Pads(n / 0x400_0000_0000 % 128)
        && Pads(n / 0x2_0000_0000_0000 % 128) && Pads(n / 0x100_0000_0000_0000 % 128))
  }

  lemma FitsByGroups(n: nat)
    requires n >= M63
    ensures Fits32(n) <==> n % M32 >= M31 && AllPad(n / 0x8_0000_0000, 5)
  {
    hide Pads;
    var w5 := n / 0x8_0000_0000;
    var w6, w7, w8 := w5 / 128, w5 / 128 / 128, w5 / 128 / 128 / 128;
    assert w6 == n / 0x400_0000_0000;
    assert w7 == n / 0x2_0000_0000_0000;
    assert w8 == n / 0x100_0000_0000_0000;
    assert AllPad(w8, 8) == Pads(w8 % 128);
    assert AllPad(w7, 7) == (Pads(w7 % 128) && AllPad(w8, 8));
    assert AllPad(w6, 6) == (Pads(w6 % 128) && AllPad(w7, 7));
  }

  lemma {:induction false} TailLong(n: nat, v: nat, k: nat, result: nat, t: seq<byte>)
    requires 1 <= k <= 4 && result < Pow128(k)
    requires n == result + Shift(v, k) && M63 <= n < M64
    ensures Varint32Tail(Varint(v) + t, 7 * k, result) == if Fits32(n) then Ok(n % M32, t) else Err
    decreases 4 - k
  {
    hide Or32, Pow128, Varint, Varint32Tail, Shift, Fits32;
    if k == 4 {
      TailLongLast(n, v, result, t);
    } else {
      TailGoesOn(n, v, k, result);
      TailStep(v, k, result, t);
      TailLong(n, v / 128, k + 1, result + Shift(v % 128, k), t);
    }
  }

  lemma TailLongLast(n: nat, v: nat, result: nat, t: seq<byte>)
    requires result < Pow128(4)
    requires n == result + Shift(v, 4) && M63 <= n < M64
    ensures Varint32Tail(Varint(v) + t, 28, result) == if Fits32(n) then Ok(n % M32, t) else Err
  {
    hide Or32, Pow128, Varint, Shift, Fits32;
    VarintUncons(v, t);
    TailLongTop(n, v, result);
    Or32Adds(result, v % 128 + 128, 4);
    TailHigh(v / 128, 5, n % M32, t);
    FitsByGroups(n);
  }

  lemma TailGoesOn(n: nat, v: nat, k: nat, result: nat)
    requires 1 <= k <= 4 && result < Pow128(k)
    requires n == result + Shift(v, k) && M63 <= n
    ensures v >= 128
  {
    hide Pow128, Shift;
    if v < 128 {
      GroupBound(v, k, result);
      Pow128Below35(k + 1);
    }
  }

  lemma TailLongTop(n: nat, v: nat, result: nat)
    requires result < Pow128(4)
    requires n == result + Shift(v, 4) && M63 <= n < M64
    ensures v >= 128 && v / 128 == n / 0x8_0000_0000 && Pow128(4) <= v / 128 < 2 * Pow128(4)
    ensures n % M32 == result + Shift(v % 128 % 16, 4)
  {
    hide Shift, Pow128;
    assert Pow128(4) == 0x1000_0000 by { Pow128Values(); }
    ShiftValues(v);
    ShiftValues(v % 128 % 16);
    LowAndHigh(n, v, result);
  }

  lemma LastFourBits(v: nat)
    ensures v % 128 % 16 == v % 16
  {
    var q, r := v / 128, v % 128;
    DivUnique(v, 16, 8 * q + r / 16, r % 16);
  }

  lemma LowAndHigh(n: nat, v: nat, result: nat)
    requires result < 0x1000_0000 && n == result + 0x1000_0000 * v
    ensures v / 128 == n / 0x8_0000_0000 && n % M32 == result + 0x1000_0000 * (v % 128 % 16)
  {
    LastFourBits(v);
    DivUnique(n, 0x8_0000_0000, v / 128, 0x1000_0000 * (v % 128) + result);
    DivUnique(n, M32, v / 16, 0x1000_0000 * (v % 16) + result);
  }

  /** pb_decode_varint32 on what pb_encode_varint wrote: it accepts the numbers that Fits32
      describes and no others, and gives their low half. */
  lemma Varint32OnVarint(v: nat, t: seq<byte>)
    requires v < M64
    ensures ReadVarint32(Varint(v) + t) == if Fits32(v) then Ok(v % M32, t) else Err
  {
    hide Varint, Varint32Tail, Shift, Pow128;
    assert Pow128(1) == 128 && Pow128(8) == 0x100_0000_0000_0000 by { Pow128Values(); }
    VarintUncons(v, t);
    if v >= 128 {
      ShiftValues(v / 128);
      if v < M32 {
        TailExact(v / 128, 1, v % 128, t);
      } else if v < M63 {
        TailTooLarge(v / 128, 1, v % 128, t);
      } else {
        TailLong(v, v / 128, 1, v % 128, t);
      }
    }
  }

  /** So every 32-bit value is read exactly, and every negative int32 that was sign-extended to
      64 bits as its low half; no non-negative int64 beyond is let through. */
  lemma Varint32OnInt32(v: nat, t: seq<byte>)
    requires v < M64
    ensures v < M32 ==> ReadVarint32(Varint(v) + t) == Ok(v, t)
    ensures M32 <= v < M63 ==> ReadVarint32(Varint(v) + t) == Err
    ensures M64 - M31 <= v ==> ReadVarint32(Varint(v) + t) == Ok(v % M32, t)
  {
    hide Varint, ReadVarint32;
    Varint32OnVarint(v, t);
    if M64 - M31 <= v {
      assert v / 0x8_0000_0000 == 0x1FFF_FFFF && v / 0x400_0000_0000 == 0x3F_FFFF;
      assert v / 0x2_0000_0000_0000 == 0x7FFF && v / 0x100_0000_0000_0000 == 0xFF;
    }
  }

  /** Not every other number is refused: some that are no int32 come back as one. */
  lemma Varint32TakesMore(t: seq<byte>)
    ensures !(0x8000_0000_8000_0000 < M32 || M64 - M31 <= 0x8000_0000_8000_0000)
    ensures ReadVarint32(Varint(0x8000_0000_8000_0000) + t) == Ok(0x8000_0000, t)
  {
    hide Varint, ReadVarint32;
    Varint32OnVarint(0x8000_0000_8000_0000, t);
  }

  lemma Or32Agrees(acc: nat, b: byte, k: nat)
    requires 1 <= k <= 9 && acc < Pow128(k)
    ensures (acc + Shift(b % 128, k)) % M32 == Or32(acc % M32, b, 7 * k)
  {
    hide BitOr, Pow2, Pow128, Shift;
    if k > 4 {
      HighGroup(acc, b % 128, k);
    } else {
      hide Or32;
      Pow128Below32(k);
      Or32Adds(acc, b, k);
      if k == 4 {
        FourthGroup(acc, b % 128);
      } else {
        LowGroup(acc, b % 128, k);
      }
    }
  }

  lemma LowGroup(acc: nat, g: nat, k: nat)
    requires 1 <= k <= 3 && acc < Pow128(k) && g < 128
    ensures (acc + Shift(g, k)) % M32 == acc + Shift(g, k)
  {
    hide Pow128, Shift;
    GroupBound(g, k, acc);
    Pow128Below32(k + 1);
  }

  lemma FourthGroup(acc: nat, g: nat)
    requires acc < Pow128(4)
    ensures (acc + Shift(g, 4)) % M32 == acc + Shift(g % 16, 4)
  {
    hide Pow128, Shift;
    assert Pow128(4) == 0x1000_0000 by { Pow128Values(); }
    ShiftValues(g);
    ShiftValues(g % 16);
    assert acc + 0x1000_0000 * g == acc + 0x1000_0000 * (g % 16) + M32 * (g / 16);
  }

  lemma HighGroup(acc: nat, g: nat, k: nat)
    requires k >= 5
    ensures (acc + Shift(g, k)) % M32 == acc % M32
  {
    assert Pow128(k) == Pow128(5) * Pow128(k - 5) by { Pow128Sum(5, k - 5); }
    assert Pow128(5) == 8 * M32 by { Pow128Values(); }
    var q := g * (8 * Pow128(k - 5));
    assert Shift(g, k) == M32 * q;
  }

  lemma {:induction false} Pow128Sum(a: nat, b: nat)
    ensures Pow128(a + b) == Pow128(a) * Pow128(b)
    decreases a
  {
    if a > 0 {
      Pow128Sum(a - 1, b);
      assert 128 * (Pow128(a - 1) * Pow128(b)) == Pow128(a) * Pow128(b);
    } else {
      assert Pow128(0) * Pow128(b) == Pow128(b);
    }
  }

  lemma TailUnfold(s: seq<byte>, bitpos: nat, result: nat)
    requires Varint32Tail(s, bitpos, result).Ok?
    ensures s != [] && Varint32Tail(s, bitpos, result) ==
      if s[0] >= 128 then Varint32Tail(s[1..], NextBitpos(bitpos), Or32(result, s[0], bitpos))
      else Ok(Or32(result, s[0], bitpos), s[1..])
  {
    hide Or32;
  }

  lemma {:induction false} TailAgrees(s: seq<byte>, k: nat, acc: nat)
    requires 1 <= k <= 9 && acc < Pow128(k)
    requires Varint32Tail(s, 7 * k, acc % M32).Ok?
    requires |s| - |Varint32Tail(s, 7 * k, acc % M32).rest| <= 10 - k
    ensures var p := Varint32Tail(s, 7 * k, acc % M32);
      RawVarint(s).Ok? && RawVarint(s).rest == p.rest && (acc + Shift(RawVarint(s).val, k)) % M32 == p.val
    decreases |s|
  {
    hide Or32, Pow128, Varint32Tail, Shift;
    TailUnfold(s, 7 * k, acc % M32);
    var b := s[0];
    var g := b % 128;
    Or32Agrees(acc, b, k);
    if b >= 128 {
      var acc' := acc + Shift(g, k);
      GroupBound(g, k, acc);
      TailAgrees(s[1..], k + 1, acc');
      GroupJoin(g, RawVarint(s[1..]).val, k);
    }
  }

  lemma GroupJoin(g: nat, w: nat, k: nat)
    ensures Shift(g + 128 * w, k) == Shift(g, k) + Shift(w, k + 1)
  {
    var p := Pow128(k);
    assert (g + 128 * w) * p == g * p + w * (128 * p);
  }

  /** Whenever it accepts a varint of at most ten bytes, the 32-bit reader returns the
      64-bit result reduced to 32 bits. */
  lemma Varint32AgreesWith64(s: seq<byte>)
    requires ReadVarint32(s).Ok? && |s| - |ReadVarint32(s).rest| <= 10
    ensures ReadVarint(s).Ok? && ReadVarint(s).rest == ReadVarint32(s).rest
    ensures ReadVarint(s).val % M32 == ReadVarint32(s).val
  {
    hide Or32, Varint32Tail, Pow128, Shift;
    if s[0] >= 128 {
      assert Pow128(1) == 128 by { Pow128Values(); }
      TailAgrees(s[1..], 1, s[0] - 128);
      ShiftValues(RawVarint(s[1..]).val);
      Mod64Mod32(RawVarint(s).val);
    }
  }

  lemma Mod64Mod32(v: nat)
    ensures v % M64 % M32 == v % M32
  {
    assert v == M64 * (v / M64) + v % M64;
    assert v == M32 * (M32 * (v / M64)) + v % M64;
  }

  lemma {:induction false} Varint32TailPrefix(s: seq<byte>, t: seq<byte>, bitpos: nat, result: nat)
    requires Varint32Tail(s, bitpos, result).Ok?
    ensures var p := Varint32Tail(s, bitpos, result); Varint32Tail(s + t, bitpos, result) == Ok(p.val, p.rest + t)
    decreases |s|
  {
    assert (s + t)[1..] == s[1..] + t;
    if s[0] >= 128 { Varint32TailPrefix(s[1..], t, NextBitpos(bitpos), Or32(result, s[0], bitpos)); }
  }

  lemma ReadVarint32Prefix(s: seq<byte>, t: seq<byte>)
    requires ReadVarint32(s).Ok?
    ensures ReadVarint32(s + t) == Ok(ReadVarint32(s).val, ReadVarint32(s).rest + t)
  {
    assert (s + t)[1..] == s[1..] + t;
    if s[0] >= 128 { Varint32TailPrefix(s[1..], t, 7, s[0] - 128); }
  }

  // ------------------------------------------------- signed and fixed values

  /** The two's complement reading of a 64-bit pattern, and back. */
  function U64(i: int): (u: int) { if i < 0 then i + M64 else i }
  function S64(u: int): (i: int) { if u >= M63 then u - M64 else u }
  function S32(u: int): (i: int) { if u % M32 >= M31 then u % M32 - M32 else u % M32 }

  /** pb_encode_svarint: `~(v << 1)` for negative values, `v << 1` otherwise. */
  function ZigZag(i: int): (u: int)
  {
    if i < 0 then M64 - 1 - 2 * U64(i) % M64 else 2 * U64(i) % M64
  }

  /** pb_decode_svarint: `~(u >> 1)` for odd values, `u >> 1` otherwise. */
  function UnZigZag(u: int): (i: int)
  {
    if u % 2 == 1 then S64(M64 - 1 - u / 2) else S64(u / 2)
  }

  lemma ZigZagInverts(i: int)
    requires -M63 <= i < M63
    ensures 0 <= ZigZag(i) < M64 && UnZigZag(ZigZag(i)) == i
    ensures ZigZag(i) == if i < 0 then -2 * i - 1 else 2 * i
  {
    if i < 0 { assert 2 * U64(i) == M64 + (M64 + 2 * i); }
  }

  lemma UnZigZagInverts(u: int)
    requires 0 <= u < M64
    ensures -M63 <= UnZigZag(u) < M63 && ZigZag(UnZigZag(u)) == u
  {
    ZigZagInverts(UnZigZag(u));
  }

  /** `n` bytes of `v`, least significant first (pb_encode_fixed32, pb_encode_fixed64). */
  function LittleEndian(v: nat, n: nat): (s: seq<byte>)
    ensures |s| == n
    decreases n
  {
    if n == 0 then [] else [v % 256] + LittleEndian(v / 256, n - 1)
  }

  function FromLittleEndian(s: seq<byte>): nat
  {
    if s == [] then 0 else s[0] + 256 * FromLittleEndian(s[1..])
  }

  function Pow256(n: nat): (p: nat)
    ensures p >= 1
  {
    if n == 0 then 1 else 256 * Pow256(n - 1)
  }

  lemma {:induction false} LittleEndianInverts(v: nat, n: nat)
    requires v < Pow256(n)
    ensures FromLittleEndian(LittleEndian(v, n)) == v
    decreases n
  {
    if n > 0 {
      assert v / 256 < Pow256(n - 1) by { assert Pow256(n) == 256 * Pow256(n - 1); }
      LittleEndianInverts(v / 256, n - 1);
      assert LittleEndian(v, n)[1..] == LittleEndian(v / 256, n - 1);
    }
  }

  lemma Pow256Values()
    ensures Pow256(4) == M32 && Pow256(8) == M64
  {
    assert Pow256(2) == 256 * Pow256(1);
    assert Pow256(4) == 256 * Pow256(3) && Pow256(3) == 256 * Pow256(2);
    assert Pow256(6) == 256 * Pow256(5) && Pow256(5) == 256 * Pow256(4);
    assert Pow256(8) == 256 * Pow256(7) && Pow256(7) == 256 * Pow256(6);
  }

  function Take(s: seq<byte>, n: nat): (p: Parse<seq<byte>>)
    ensures p.Ok? ==> |p.rest| <= |s| && |p.val| == n
  {
    if n <= |s| then Ok(s[..n], s[n..]) else Err
  }

  // ---------------------------------------------------------------- keys

  type WireType = w: nat | w < 8
  const WT_VARINT: WireType := 0
  const WT_64BIT: WireType := 1
  const WT_STRING: WireType := 2
  const WT_32BIT: WireType := 5

  const TAG_LIMIT: nat := 0x2000_0000

  function Key(tag: nat, wt: WireType): seq<byte> { Varint(8 * tag + wt) }

  /** A key, or the end of the message (no bytes, or a zero key). */
  datatype KeyParse = KeyErr | KeyEnd(rest: seq<byte>) | KeyOk(tag: nat, wt: WireType, rest: seq<byte>)

  function ReadKey(s: seq<byte>): (k: KeyParse)
    ensures k.KeyOk? ==> |k.rest| < |s|
    ensures k.KeyEnd? ==> |k.rest| <= |s|
  {
    if s == [] then KeyEnd(s)
    else
      match ReadVarint32(s)
      case Err => KeyErr
      case Ok(key, rest) => if key == 0 then KeyEnd(rest) else KeyOk(key / 8, key % 8, rest)
  }

  lemma KeyInverts(tag: nat, wt: WireType, t: seq<byte>)
    requires 0 < tag < TAG_LIMIT
    ensures ReadKey(Key(tag, wt) + t) == KeyOk(tag, wt, t)
    ensures |Key(tag, wt)| >= 1
  {
    hide Varint, ReadVarint32;
    Varint32OnInt32(8 * tag + wt, t);
  }
}
