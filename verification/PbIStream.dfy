/** pb_istream_t over a buffer, the primitive readers and the skip functions, refining the
    pure readers of `PbWire` and `PbDecodeSpec`. */
module PbIStream {
  import opened Bits
  import opened PbWire
  import opened PbSchema
  import opened PbDecodeSpec

  class IStream {
    const buf: array<byte>
    var state: nat
    var bytesLeft: nat

    ghost predicate Valid()
      reads this
    {
      state + bytesLeft <= buf.Length
    }

    /** The bytes that can still be read. */
    ghost function Rest(): (s: seq<byte>)
      requires Valid()
      reads this, buf
      ensures |s| == bytesLeft
    {
      buf[state..state + bytesLeft]
    }

    /** Where the stream ends. */
    ghost function End(): nat
      reads this
    {
      state + bytesLeft
    }

    /** pb_istream_from_buffer. */
    constructor FromBuffer(b: array<byte>, size: nat)
      requires size <= b.Length
      ensures Valid() && buf == b && Rest() == b[..size]
    {
      buf, state, bytesLeft := b, 0, size;
    }

    /** A substream: a copy of a stream with another limit. */
    constructor Limited(b: array<byte>, at: nat, size: nat)
      requires at + size <= b.Length
      ensures Valid() && buf == b && state == at && bytesLeft == size && Rest() == b[at..at + size]
    {
      buf, state, bytesLeft := b, at, size;
    }

    /** pb_read: the bytes go to the caller's memory, or nowhere. */
    method Read(count: nat) returns (ok: bool, data: seq<byte>)
      requires Valid()
      modifies this
      ensures Valid() && End() == old(End())
      ensures match Take(old(Rest()), count)
        case Err => !ok && Rest() == old(Rest())
        case Ok(b, rest) => ok && data == b && Rest() == rest
    {
      if bytesLeft < count {
        return false, [];
      }
      data := buf[state..state + count];
      state := state + count;
      bytesLeft := bytesLeft - count;
      return true, data;
    }

    /** pb_read with a null buffer. */
    method ReadNull(count: nat) returns (ok: bool)
      requires Valid()
      modifies this
      ensures Valid() && End() == old(End())
      ensures match Take(old(Rest()), count)
        case Err => !ok && Rest() == old(Rest())
        case Ok(_, rest) => ok && Rest() == rest && state == old(state) + count
    {
      if bytesLeft < count {
        return false;
      }
      state := state + count;
      bytesLeft := bytesLeft - count;
      return true;
    }

    /** pb_readbyte. */
    method ReadByte() returns (ok: bool, b: byte)
      requires Valid()
      modifies this
      ensures Valid() && End() == old(End())
      ensures ok <==> old(Rest()) != []
      ensures ok ==> b == old(Rest())[0] && Rest() == old(Rest())[1..]
      ensures !ok ==> Rest() == old(Rest())
    {
      if bytesLeft == 0 {
        return false, 0;
      }
      b := buf[state];
      state := state + 1;
      bytesLeft := bytesLeft - 1;
      return true, b;
    }

    /** pb_decode_varint. */
    method DecodeVarint() returns (ok: bool, dest: nat)
      requires Valid()
      modifies this
      ensures Valid() && End() == old(End())
      ensures match ReadVarint(old(Rest())) case Err => !ok case Ok(v, rest) => ok && dest == v && Rest() == rest
    {
      hide BitOr, Pow2, Pow128, Shift, RawVarint, Joined;
      ghost var s0 := Rest();
      ghost var k, acc: nat := 0, 0;
      var bitpos: nat, result: nat := 0, 0;
      var b: byte := 0x80;
      NoGroupYet(s0);
      while b >= 0x80
        invariant Valid() && End() == old(End()) && k <= 10 && bitpos == 7 * k && |s0| == |Rest()| + k
        invariant result == acc % M64 && acc < Pow128(k)
        invariant k == 0 ==> b >= 0x80
        invariant b >= 0x80 ==> RawVarint(s0) == Joined(acc, k, RawVarint(Rest()))
        invariant b < 0x80 ==> RawVarint(s0) == Ok(acc, Rest())
        decreases 10 - k, b
      {
        if bitpos >= 64 {
          TooManyGroups(s0, acc, k, Rest());
          return false, 0;
        }
        ghost var s1 := Rest();
        ok, b := ReadByte();
        if !ok {
          GroupMissing(s0, acc, k, s1);
          return false, 0;
        }
        GroupRead(s0, acc, k, s1);
        OrGroup(result, acc, b, k);
        result := BitOr(result, b % 128 * Pow2(bitpos) % M64);
        acc := acc + Shift(b % 128, k);
        bitpos := bitpos + 7;
        k := k + 1;
      }
      return true, result;
    }

    /** pb_decode_varint32_eof. */
    method DecodeVarint32Eof() returns (ok: bool, dest: nat, eof: bool)
      requires Valid()
      modifies this
      ensures Valid() && End() == old(End())
      ensures match ReadVarint32(old(Rest())) case Err => !ok case Ok(v, rest) => ok && dest == v && Rest() == rest
      ensures eof <==> old(Rest()) == []
      ensures eof ==> Rest() == []
    {
      hide BitOr, Pow2;
      ghost var s0 := Rest();
      var b: byte;
      eof := false;
      ok, b := ReadByte();
      if !ok {
        if bytesLeft == 0 {
          eof := true;
        }
        return false, 0, eof;
      }
      if b < 0x80 {
        return true, b, eof;
      }
      ok, dest := Varint32Rest(b % 128);
    }

    /** pb_decode_varint32. */
    method DecodeVarint32() returns (ok: bool, dest: nat)
      requires Valid()
      modifies this
      ensures Valid() && End() == old(End())
      ensures match ReadVarint32(old(Rest())) case Err => !ok case Ok(v, rest) => ok && dest == v && Rest() == rest
    {
      hide ReadVarint32;
      var eof: bool;
      ok, dest, eof := DecodeVarint32Eof();
    }

    /** The multibyte case of pb_decode_varint32_eof. */
    method Varint32Rest(first: nat) returns (ok: bool, dest: nat)
      requires Valid()
      modifies this
      ensures Valid() && End() == old(End())
      ensures match Varint32Tail(old(Rest()), 7, first) case Err => !ok case Ok(v, rest) => ok && dest == v && Rest() == rest
    {
      hide BitOr, Pow2;
      ghost var s0 := Rest();
      var bitpos, result: nat := 7, first;
      var b: byte;
      while true
        invariant Valid() && End() == old(End()) && bitpos >= 0
        invariant Varint32Tail(s0, 7, first) == Varint32Tail(Rest(), bitpos, result)
        decreases bytesLeft
      {
        ok, b := ReadByte();
        if !ok {
          return false, 0;
        }
        if bitpos >= 32 {
          var signExtension := if bitpos < 63 then 0xFF else 0x01;
          if b % 128 != 0 && (result < M31 || b != signExtension) {
            return false, 0;
          }
        } else {
          result := BitOr(result, b % 128 * Pow2(bitpos) % M32);
        }
        bitpos := (bitpos + 7) % 256;
        if b < 0x80 {
          break;
        }
      }
      if bitpos == 35 && b >= 16 {
        return false, 0;
      }
      return true, result;
    }

    /** pb_skip_varint. */
    method SkipVarint() returns (ok: bool)
      requires Valid()
      modifies this
      ensures Valid() && End() == old(End())
      ensures match PbDecodeSpec.SkipVarint(old(Rest())) case Err => !ok case Ok(_, rest) => ok && Rest() == rest
    {
      ghost var s0 := Rest();
      var b: byte := 0x80;
      while b >= 0x80
        invariant Valid() && End() == old(End())
        invariant b >= 0x80 ==> PbDecodeSpec.SkipVarint(s0) == PbDecodeSpec.SkipVarint(Rest())
        invariant b < 0x80 ==> PbDecodeSpec.SkipVarint(s0) == Ok((), Rest())
        decreases bytesLeft, b
      {
        ok, b := ReadByte();
        if !ok {
          return;
        }
      }
      return true;
    }

    /** pb_skip_string. */
    method SkipString() returns (ok: bool)
      requires Valid()
      modifies this
      ensures Valid() && End() == old(End())
      ensures match ReadBlock(old(Rest())) case Err => !ok case Ok(_, rest) => ok && Rest() == rest
    {
      hide ReadVarint32;
      var length: nat;
      ok, length := DecodeVarint32();
      if !ok {
        return;
      }
      ok := ReadNull(length);
    }

    /** pb_skip_field. */
    method SkipField(wt: WireType) returns (ok: bool)
      requires Valid()
      modifies this
      ensures Valid() && End() == old(End())
      ensures match Skip(wt, old(Rest())) case Err => !ok case Ok(_, rest) => ok && Rest() == rest
    {
      hide ReadBlock, PbDecodeSpec.SkipVarint;
      if wt == WT_VARINT {
        ok := SkipVarint();
      } else if wt == WT_64BIT {
        ok := ReadNull(8);
      } else if wt == WT_STRING {
        ok := SkipString();
      } else if wt == WT_32BIT {
        ok := ReadNull(4);
      } else {
        ok := false;
      }
    }

    /** pb_decode_tag: a zero key ends the message, like the end of the bytes. */
    method DecodeTag() returns (ok: bool, wt: WireType, tag: nat, eof: bool)
      requires Valid()
      modifies this
      ensures Valid() && End() == old(End())
      ensures match ReadKey(old(Rest()))
        case KeyErr => !ok && !eof
        case KeyEnd(rest) => !ok && eof && Rest() == rest
        case KeyOk(t, w, rest) => ok && tag == t && wt == w && Rest() == rest
    {
      hide ReadVarint32;
      ghost var s0 := Rest();
      var temp: nat;
      wt, tag := 0, 0;
      ok, temp, eof := DecodeVarint32Eof();
      if !ok {
        return;
      }
      if temp == 0 {
        eof := true;
        return false, wt, tag, eof;
      }
      tag := temp / 8;
      wt := temp % 8;
    }

    /** pb_make_string_substream: the parent gives up the block, but moves on only when the
        substream is closed. */
    method MakeSubstream() returns (ok: bool, sub: IStream)
      requires Valid()
      modifies this
      ensures Valid() && End() <= old(End())
      ensures match ReadBlock(old(Rest()))
        case Err => !ok
        case Ok(b, rest) =>
          && ok && fresh(sub) && sub.buf == buf && sub.Valid() && sub.Rest() == b
          && bytesLeft == |rest| && sub.End() + bytesLeft == old(End())
          && rest == buf[sub.End()..old(End())]
    {
      hide ReadVarint32;
      sub := this;
      var size: nat;
      ok, size := DecodeVarint32();
      if !ok {
        return;
      }
      if bytesLeft < size {
        return false, this;
      }
      ghost var rest := Rest();
      sub := new IStream.Limited(buf, state, size);
      bytesLeft := bytesLeft - size;
      assert sub.Rest() == rest[..size] && rest[size..] == buf[sub.End()..old(End())];
    }

    /** pb_close_string_substream: what is left of the substream is skipped. */
    method CloseSubstream(sub: IStream) returns (ok: bool)
      requires Valid() && sub.Valid() && sub.buf == buf && sub != this
      requires sub.End() + bytesLeft <= buf.Length
      modifies this, sub
      ensures Valid() && ok && End() == old(sub.End() + bytesLeft)
      ensures Rest() == old(buf[sub.End()..sub.End() + bytesLeft])
    {
      if sub.bytesLeft != 0 {
        ok := sub.ReadNull(sub.bytesLeft);
        if !ok {
          return;
        }
      }
      state := sub.state;
      return true;
    }
  }

  /** The value of a varint of which `k` groups have been read as `acc`. */
  function Joined(acc: nat, k: nat, p: Parse<nat>): Parse<nat>
  {
    match p case Err => Err case Ok(v, rest) => Ok(acc + Shift(v, k), rest)
  }

  lemma NoGroupYet(s: seq<byte>)
    ensures RawVarint(s) == Joined(0, 0, RawVarint(s)) && Pow128(0) == 1
  {}

  lemma GroupMissing(s0: seq<byte>, acc: nat, k: nat, s: seq<byte>)
    requires s == [] && RawVarint(s0) == Joined(acc, k, RawVarint(s))
    ensures ReadVarint(s0) == Err
  {}

  lemma TooManyGroups(s0: seq<byte>, acc: nat, k: nat, s: seq<byte>)
    requires k >= 10 && |s0| == |s| + k && RawVarint(s0) == Joined(acc, k, RawVarint(s))
    ensures ReadVarint(s0) == Err
  {
    hide Shift;
  }

  lemma GroupRead(s0: seq<byte>, acc: nat, k: nat, s: seq<byte>)
    requires s != [] && RawVarint(s0) == Joined(acc, k, RawVarint(s)) && acc < Pow128(k)
    ensures var acc' := acc + Shift(s[0] % 128, k);
      && acc' < Pow128(k + 1)
      && (s[0] >= 128 ==> RawVarint(s0) == Joined(acc', k + 1, RawVarint(s[1..])))
      && (s[0] < 128 ==> RawVarint(s0) == Ok(acc', s[1..]))
  {
    hide Shift, Pow128, RawVarint;
    RawVarintStep(s);
    GroupBound(s[0] % 128, k, acc);
    if s[0] >= 128 && RawVarint(s[1..]).Ok? {
      GroupJoin(s[0] % 128, RawVarint(s[1..]).val, k);
    }
  }

  lemma RawVarintStep(s: seq<byte>)
    requires s != []
    ensures s[0] < 128 ==> RawVarint(s) == Ok(s[0] % 128, s[1..])
    ensures s[0] >= 128 ==>
      RawVarint(s) == match RawVarint(s[1..]) case Err => Err case Ok(v, rest) => Ok(s[0] % 128 + 128 * v, rest)
  {}

  /** Or-ing a group in at bit 7k of a 64-bit word: no bit is there yet. */
  lemma OrGroup(result: nat, acc: nat, b: byte, k: nat)
    requires k <= 9 && acc < Pow128(k) && result == acc % M64
    ensures BitOr(result, b % 128 * Pow2(7 * k) % M64) == (acc + Shift(b % 128, k)) % M64
  {
    hide BitOr, Pow2, Pow128;
    var g := b % 128;
    Pow2Groups(k);
    Pow128Below64(k);
    assert g * Pow2(7 * k) == Shift(g, k);
    hide Shift;
    if k < 9 {
      LowGroup64(acc, g, k);
      OrShift(acc, g, k);
    } else {
      TopGroup(g);
      OrShift(acc, g % 2, 9);
      TopGroupMod(acc, g);
    }
  }

  lemma LowGroup64(acc: nat, g: nat, k: nat)
    requires k < 9 && acc < Pow128(k) && g < 128
    ensures Shift(g, k) % M64 == Shift(g, k) && (acc + Shift(g, k)) % M64 == acc + Shift(g, k)
  {
    hide Shift, Pow128;
    GroupBound(g, k, acc);
    Pow128Below64(k + 1);
  }

  lemma OrShift(acc: nat, g: nat, k: nat)
    requires acc < Pow128(k)
    ensures BitOr(acc, Shift(g, k)) == acc + Shift(g, k)
  {
    hide BitOr, Pow2, Pow128;
    Pow2Groups(k);
    BitOrDisjoint(acc, g, 7 * k);
  }

  lemma Pow128Below64(k: nat)
    requires k <= 9
    ensures Pow128(k) <= M63
  {
    Pow128Values();
    assert k == 0 || k == 1 || k == 2 || k == 3 || k == 4 || k == 5 || k == 6 || k == 7 || k == 8 || k == 9;
  }

  lemma TopGroup(g: nat)
    ensures Shift(g, 9) == M63 * g && Shift(g, 9) % M64 == Shift(g % 2, 9) && Shift(g % 2, 9) < M64
  {
    assert Pow128(9) == M63 by { Pow128Values(); }
    hide Pow128;
    assert g == 2 * (g / 2) + g % 2;
    assert M63 * g == M64 * (g / 2) + M63 * (g % 2);
  }

  lemma TopGroupMod(acc: nat, g: nat)
    requires acc < M63
    ensures (acc + Shift(g, 9)) % M64 == acc + Shift(g % 2, 9)
  {
    hide Shift;
    TopGroup(g);
    TopGroup(g % 2);
    assert g == 2 * (g / 2) + g % 2;
    assert acc + M63 * g == M64 * (g / 2) + (acc + M63 * (g % 2));
  }
}
