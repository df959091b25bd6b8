/** DTLS handshake fragments (RFC 6347, section 4.2.2): the 12-byte header on the wire, and
    the reassembly of one message from its fragments with a bitmask of received bytes. */
module DtlsFragment {
  import opened Bits

  const HM_HEADER_LENGTH: nat := 12

  datatype Header = Header(typ: byte, msgLen: nat, seqNo: nat, fragOff: nat, fragLen: nat)

  predicate HeaderFits(h: Header)
  {
    h.msgLen < 0x100_0000 && h.seqNo < 0x1_0000 && h.fragOff < 0x100_0000 && h.fragLen < 0x100_0000
  }

  function FromU16(a: int, b: int): int { 0x100 * a + b }

  function FromU24(a: int, b: int, c: int): int { 0x1_0000 * a + 0x100 * b + c }

  lemma BigEndian(v: nat)
    ensures v < 0x1_0000 ==> v / 0x100 < 0x100 && FromU16(v / 0x100, v % 0x100) == v
    ensures v < 0x100_0000 ==> v / 0x1_0000 < 0x100 && FromU24(v / 0x1_0000, v / 0x100 % 0x100, v % 0x100) == v
  {
    assert v / 0x100 / 0x100 == v / 0x1_0000;
  }

  function HeaderBytes(h: Header): (s: seq<byte>)
    requires HeaderFits(h)
    ensures |s| == HM_HEADER_LENGTH
  {
    [h.typ,
     h.msgLen / 0x1_0000, h.msgLen / 0x100 % 0x100, h.msgLen % 0x100,
     h.seqNo / 0x100, h.seqNo % 0x100,
     h.fragOff / 0x1_0000, h.fragOff / 0x100 % 0x100, h.fragOff % 0x100,
     h.fragLen / 0x1_0000, h.fragLen / 0x100 % 0x100, h.fragLen % 0x100]
  }

  function HeaderOf(s: seq<byte>): (h: Header)
    requires |s| >= HM_HEADER_LENGTH
  {
    Header(s[0], FromU24(s[1], s[2], s[3]), FromU16(s[4], s[5]), FromU24(s[6], s[7], s[8]), FromU24(s[9], s[10], s[11]))
  }

  datatype Parsed = Malformed | Fragment(hdr: Header, body: seq<byte>, rest: seq<byte>)

  /** dtls1_parse_fragment. */
  function ParseFragment(s: seq<byte>): (p: Parsed)
    ensures p.Fragment? ==> |p.rest| + HM_HEADER_LENGTH <= |s| && |p.body| == p.hdr.fragLen && HeaderFits(p.hdr)
  {
    if |s| < HM_HEADER_LENGTH then Malformed
    else
      var h := HeaderOf(s);
      var rest := s[HM_HEADER_LENGTH..];
      if |rest| < h.fragLen then Malformed else Fragment(h, rest[..h.fragLen], rest[h.fragLen..])
  }

  /** Where the parts of a fragment lie (section 4.2.2 of RFC 6347): type, message length, message
      number, fragment offset, fragment length and as many bytes. */
  lemma FragmentLayout(s: seq<byte>)
    ensures ParseFragment(s).Fragment? <==> |s| >= 12 && |s| >= 12 + 0x1_0000 * (s[9] as int) + 0x100 * (s[10] as int) + s[11]
    ensures ParseFragment(s).Fragment? ==>
      var p := ParseFragment(s);
      && p.hdr.typ == s[0]
      && p.hdr.msgLen == 0x1_0000 * (s[1] as int) + 0x100 * (s[2] as int) + s[3] && p.hdr.seqNo == 0x100 * (s[4] as int) + s[5]
      && p.hdr.fragOff == 0x1_0000 * (s[6] as int) + 0x100 * (s[7] as int) + s[8]
      && p.hdr.fragLen == 0x1_0000 * (s[9] as int) + 0x100 * (s[10] as int) + s[11]
      && p.body == s[12..12 + p.hdr.fragLen] && p.rest == s[12 + p.hdr.fragLen..]
  {}

  /** A fragment on the wire is parsed back. */
  lemma ParseInverts(h: Header, body: seq<byte>, t: seq<byte>)
    requires HeaderFits(h) && |body| == h.fragLen
    ensures ParseFragment(HeaderBytes(h) + body + t) == Fragment(h, body, t)
  {
    var s := HeaderBytes(h) + body + t;
    assert s[..HM_HEADER_LENGTH] == HeaderBytes(h);
    HeaderInverts(h, s);
    assert s[HM_HEADER_LENGTH..] == body + t;
    assert (body + t)[..h.fragLen] == body && (body + t)[h.fragLen..] == t;
  }

  lemma HeaderInverts(h: Header, s: seq<byte>)
    requires HeaderFits(h) && |s| >= HM_HEADER_LENGTH && s[..HM_HEADER_LENGTH] == HeaderBytes(h)
    ensures HeaderOf(s) == h
  {
    hide FromU16, FromU24;
    var p := HeaderBytes(h);
    assert forall k :: 0 <= k < HM_HEADER_LENGTH ==> s[k] == s[..HM_HEADER_LENGTH][k] == p[k];
    assert s[0] == p[0] && s[1] == p[1] && s[2] == p[2] && s[3] == p[3] && s[4] == p[4] && s[5] == p[5];
    assert s[6] == p[6] && s[7] == p[7] && s[8] == p[8] && s[9] == p[9] && s[10] == p[10] && s[11] == p[11];
    BigEndian(h.msgLen);
    BigEndian(h.seqNo);
    BigEndian(h.fragOff);
    BigEndian(h.fragLen);
  }

  // ------------------------------------------------------ the bitmask

  /** Whether byte `i` is marked as received. */
  predicate BitAt(mask: seq<byte>, i: nat)
    requires i < 8 * |mask|
  {
    Bit(mask[i / 8], i % 8)
  }

  function Not32(w: nat): nat { if w <= 0xFFFF_FFFF then 0xFFFF_FFFF - w else 0 }

  function BitAnd(a: nat, b: nat): (r: nat)
    ensures r <= a && r <= b
    decreases a
  {
    if a == 0 || b == 0 then 0
    else (if a % 2 == 1 && b % 2 == 1 then 1 else 0) + 2 * BitAnd(a / 2, b / 2)
  }

  lemma {:induction false} BitOfAnd(a: nat, b: nat, k: nat)
    ensures Bit(BitAnd(a, b), k) <==> Bit(a, k) && Bit(b, k)
    decreases k
  {
    if a == 0 { ZeroBits(k); }
    else if b == 0 { ZeroBits(k); }
    else if k > 0 { BitOfAnd(a / 2, b / 2, k - 1); }
  }

  /** Complement within `n` bits. */
  lemma {:induction false} BitOfComplement(w: nat, n: nat, k: nat)
    requires k < n && w < Pow2(n)
    ensures Bit(Pow2(n) - 1 - w, k) <==> !Bit(w, k)
    decreases n
  {
    hide Bit;
    Halves(w, n);
    BitStep(w, k);
    BitStep(Pow2(n) - 1 - w, k);
    if k > 0 { BitOfComplement(w / 2, n - 1, k - 1); }
  }

  lemma BitStep(w: nat, k: nat)
    ensures Bit(w, k) <==> if k == 0 then w % 2 == 1 else Bit(w / 2, k - 1)
  {}

  /** Complementing goes bit by bit. */
  lemma Halves(w: nat, n: nat)
    requires n > 0 && w < Pow2(n)
    ensures w / 2 < Pow2(n - 1) && (Pow2(n) - 1 - w) / 2 == Pow2(n - 1) - 1 - w / 2
    ensures (Pow2(n) - 1 - w) % 2 == 1 - w % 2
  {
    var p := Pow2(n - 1);
    assert Pow2(n) == 2 * p;
    hide Pow2;
    assert 2 * p - 1 - w == 2 * (p - 1 - w / 2) + (1 - w % 2);
  }

  /** bit_range: `(uint8_t)(~((1u << start) - 1) & ((1u << end) - 1))`. */
  function BitRange(start: nat, end: nat): (b: byte)
    requires start <= end <= 8
  {
    BitAnd(Not32(Pow2(start) - 1), Pow2(end) - 1) % 256
  }

  lemma BitOfRange(start: nat, end: nat, k: nat)
    requires start <= end <= 8
    ensures Bit(BitRange(start, end), k) <==> start <= k < end
  {
    hide Bit, BitAnd;
    SmallPow2(start);
    SmallPow2(end);
    hide Pow2;
    var low, high := Pow2(start) - 1, Pow2(end) - 1;
    assert BitAnd(Not32(low), high) <= 255;
    BitOfAnd(Not32(low), high, k);
    BitOfOnes(end, k);
    if k < 32 { BitOfNot32(low, start, k); }
  }

  lemma BitOfNot32(low: nat, start: nat, k: nat)
    requires start <= 8 && low == Pow2(start) - 1 <= 255 && k < 32
    ensures Bit(Not32(low), k) <==> k >= start
  {
    hide Bit;
    assert Pow2(32) == 0x1_0000_0000 by { WordSize(); }
    hide Pow2;
    BitOfComplement(low, 32, k);
    BitOfOnes(start, k);
  }

  lemma SmallPow2(n: nat)
    requires n <= 8
    ensures Pow2(n) <= 256
  {
    assert Pow2(8) == 256 * Pow2(0);
    PowGrows(n, 8);
  }

  lemma {:induction false} PowGrows(n: nat, m: nat)
    requires n <= m
    ensures Pow2(n) <= Pow2(m)
    decreases m
  {
    if n < m { PowGrows(n, m - 1); }
  }

  lemma WordSize()
    ensures Pow2(32) == 0x1_0000_0000 && Pow2(8) == 0x100
  {
    assert Pow2(8) == 256 * Pow2(0);
    assert Pow2(16) == 256 * Pow2(8);
    assert Pow2(24) == 256 * Pow2(16);
    assert Pow2(32) == 256 * Pow2(24);
  }

  lemma {:induction false} BitOrBound(a: nat, b: nat, n: nat)
    requires a < Pow2(n) && b < Pow2(n)
    ensures BitOr(a, b) < Pow2(n)
    decreases n
  {
    if a != 0 && b != 0 { BitOrBound(a / 2, b / 2, n - 1); }
  }

  /** `mask2` marks what `mask` marks and the positions from `start` to `end`. */
  ghost predicate Covers(mask: seq<byte>, mask2: seq<byte>, start: nat, end: nat)
  {
    |mask2| == |mask| &&
    forall i: nat :: i < 8 * |mask| ==> (BitAt(mask2, i) <==> BitAt(mask, i) || start <= i < end)
  }

  /** `mask[at] |= bit_range(lo, hi)`. */
  function OrByte(b: byte, lo: nat, hi: nat): (r: byte)
    requires lo <= hi <= 8
  {
    WordSize();
    BitOrBound(b, BitRange(lo, hi), 8);
    BitOr(b, BitRange(lo, hi))
  }

  lemma OrByteCovers(mask: seq<byte>, at: nat, lo: nat, hi: nat)
    requires at < |mask| && lo <= hi <= 8
    ensures Covers(mask, mask[at := OrByte(mask[at], lo, hi)], 8 * at + lo, 8 * at + hi)
  {
    hide Bit, BitOr, BitRange;
    var mask2 := mask[at := OrByte(mask[at], lo, hi)];
    forall i: nat | i < 8 * |mask|
      ensures BitAt(mask2, i) <==> BitAt(mask, i) || 8 * at + lo <= i < 8 * at + hi
    {
      if i / 8 == at {
        BitOfOr(mask[at], BitRange(lo, hi), i % 8);
        BitOfRange(lo, hi, i % 8);
      }
    }
  }

  lemma FullByteCovers(mask: seq<byte>, at: nat)
    requires at < |mask|
    ensures Covers(mask, mask[at := 0xFF], 8 * at, 8 * at + 8)
  {
    hide Bit;
    var mask2 := mask[at := 0xFF];
    forall i: nat | i < 8 * |mask|
      ensures BitAt(mask2, i) <==> BitAt(mask, i) || 8 * at <= i < 8 * at + 8
    {
      if i / 8 == at {
        WordSize();
        BitOfOnes(8, i % 8);
      }
    }
  }

  lemma CoversThen(m0: seq<byte>, m1: seq<byte>, m2: seq<byte>, a: nat, b: nat, c: nat)
    requires a <= b <= c && Covers(m0, m1, a, b) && Covers(m1, m2, b, c)
    ensures Covers(m0, m2, a, c)
  {
    hide BitAt;
  }

  /** The marking part of dtls1_hm_fragment_mark. */
  method MarkBits(mask: array<byte>, start: nat, end: nat)
    requires start < end <= 8 * mask.Length
    modifies mask
    ensures Covers(old(mask[..]), mask[..], start, end)
  {
    hide Covers, BitRange, BitOr;
    ghost var m0 := mask[..];
    var first, last := start / 8, end / 8;
    if first == last {
      OrByteCovers(m0, first, start % 8, end % 8);
      mask[first] := OrByte(mask[first], start % 8, end % 8);
      assert mask[..] == m0[first := mask[first]];
    } else {
      OrByteCovers(m0, first, start % 8, 8);
      mask[first] := OrByte(mask[first], start % 8, 8);
      assert mask[..] == m0[first := mask[first]];
      FillBytes(mask, m0, start, first + 1, last);
      if end % 8 != 0 {
        ghost var m1 := mask[..];
        OrByteCovers(m1, last, 0, end % 8);
        mask[last] := OrByte(mask[last], 0, end % 8);
        assert mask[..] == m1[last := mask[last]];
        CoversThen(m0, m1, mask[..], start, 8 * last, end);
      }
    }
  }

  /** Its loop over the bytes that are covered whole. */
  method FillBytes(mask: array<byte>, ghost m0: seq<byte>, ghost start: nat, from: nat, to: nat)
    requires from <= to <= mask.Length && start <= 8 * from && Covers(m0, mask[..], start, 8 * from)
    modifies mask
    ensures Covers(m0, mask[..], start, 8 * to)
  {
    hide Covers;
    for i := from to to
      invariant Covers(m0, mask[..], start, 8 * i)
    {
      ghost var m1 := mask[..];
      FullByteCovers(m1, i);
      mask[i] := 0xFF;
      assert mask[..] == m1[i := 0xFF];
      CoversThen(m0, m1, mask[..], start, 8 * i, 8 * i + 8);
    }
  }

  /** The completeness check of dtls1_hm_fragment_mark. */
  method AllMarked(mask: array<byte>, msgLen: nat) returns (all: bool)
    requires mask.Length == (msgLen + 7) / 8
    requires forall i: nat :: msgLen <= i < 8 * mask.Length ==> !BitAt(mask[..], i)
    ensures all <==> forall i: nat :: i < msgLen ==> BitAt(mask[..], i)
  {
    hide BitAt, BitRange;
    for k := 0 to msgLen / 8
      invariant forall i: nat :: i < 8 * k ==> BitAt(mask[..], i)
    {
      ByteMarked(mask[..], k, 8);
      if mask[k] != 0xFF {
        return false;
      }
    }
    if msgLen % 8 != 0 {
      ByteMarked(mask[..], msgLen / 8, msgLen % 8);
      if mask[msgLen / 8] != BitRange(0, msgLen % 8) {
        return false;
      }
    }
    return true;
  }

  /** A byte without bits at or above `n` has all bits below `n` just if it is bit_range(0, n). */
  lemma ByteMarked(mask: seq<byte>, k: nat, n: nat)
    requires k < |mask| && 1 <= n <= 8
    requires forall i: nat :: 8 * k + n <= i < 8 * k + 8 ==> !BitAt(mask, i)
    ensures mask[k] == BitRange(0, n) <==> forall i: nat :: 8 * k <= i < 8 * k + n ==> BitAt(mask, i)
    ensures n == 8 ==> BitRange(0, n) == 0xFF
  {
    hide Bit, BitRange;
    WordSize();
    forall j: nat ensures Bit(BitRange(0, n), j) <==> j < n { BitOfRange(0, n, j); }
    forall j: nat ensures Bit(0xFF, j) <==> j < 8 { BitOfOnes(8, j); }
    if n == 8 { SameBits(BitRange(0, n), 0xFF); }
    forall j: nat | j < 8 ensures Bit(mask[k], j) <==> BitAt(mask, 8 * k + j) {
      assert (8 * k + j) / 8 == k && (8 * k + j) % 8 == j;
    }
    forall j: nat | j >= 8 ensures !Bit(mask[k], j) { HighBits(mask[k], 8, j); }
    if forall i: nat :: 8 * k <= i < 8 * k + n ==> BitAt(mask, i) {
      forall j: nat ensures Bit(mask[k], j) <==> Bit(BitRange(0, n), j) {
        if j < n { assert BitAt(mask, 8 * k + j); } else if j < 8 { assert !BitAt(mask, 8 * k + j); }
      }
      SameBits(mask[k], BitRange(0, n));
    } else {
      var i: nat :| 8 * k <= i < 8 * k + n && !BitAt(mask, i);
      assert !Bit(mask[k], i - 8 * k);
    }
  }

  lemma {:induction false} HighBits(w: nat, n: nat, k: nat)
    requires w < Pow2(n) && k >= n
    ensures !Bit(w, k)
    decreases n
  {
    if n == 0 { ZeroBits(k); } else { HighBits(w / 2, n - 1, k - 1); }
  }
}
