/** SSLBuffer (ssl/ssl_buffer.cc): bytes that wait to be written, in memory whose start is
    offset for alignment. `offset`, `size` and `cap` are 16-bit integers. */
module TlsBuffer {
  import opened Bits

  const ALIGN_PAYLOAD: nat := 8
  const MAX_U16: nat := 0xFFFF
  const LIMIT: nat := 0x1_0000

  class SSLBuffer {
    var buf: array?<byte>
    var offset: nat
    var size: nat
    var cap: nat

    ghost predicate Valid()
      reads this
    {
      && offset <= MAX_U16 && size <= cap <= MAX_U16
      && (if buf == null then offset == size == cap == 0 else offset + cap <= buf.Length)
    }

    ghost function Contents(): (s: seq<byte>)
      requires Valid()
      reads this, buf
      ensures |s| == size
    {
      if buf == null then [] else buf[offset..offset + size]
    }

    /** Whatever a write takes, the offset does not wrap around while bytes are left. */
    ghost predicate NoWrap()
      reads this
    {
      offset + size <= LIMIT
    }

    constructor ()
      ensures Valid() && NoWrap() && Contents() == [] && buf == null
    {
      buf, offset, size, cap := null, 0, 0, 0;
    }

    method Clear()
      modifies this
      ensures Valid() && NoWrap() && Contents() == [] && buf == null
    {
      buf, offset, size, cap := null, 0, 0, 0;
    }

    /** `memory` says whether the allocation succeeds; `align` is where the allocator and the length
        of the header put the start. The contents stay, at the old offset or at a new one below 8. */
    method EnsureCap(newCap: nat, memory: bool, align: nat) returns (ok: bool)
      requires Valid() && align < 8
      modifies this
      ensures Valid() && Contents() == old(Contents())
      ensures buf == old(buf) || fresh(buf)
      ensures ok <==> newCap <= 0xFFFF && (newCap <= old(cap) || memory)
      ensures ok ==> newCap <= cap
      ensures offset == old(offset) || offset < 8
      ensures !ok || newCap <= old(cap) ==> buf == old(buf) && offset == old(offset) && cap == old(cap)
    {
      if newCap > MAX_U16 {
        return false;
      }
      if cap >= newCap {
        return true;
      }
      if !memory {
        return false;
      }
      var newBuf := new byte[newCap + ALIGN_PAYLOAD - 1];
      if buf != null {
        CopyTo(newBuf, align);
      }
      buf, offset, cap := newBuf, align, newCap;
      return true;
    }

    method CopyTo(newBuf: array<byte>, align: nat)
      requires Valid() && buf != null && newBuf != buf && align + size <= newBuf.Length
      modifies newBuf
      ensures newBuf[align..align + size] == Contents()
    {
      forall i | 0 <= i < size { newBuf[align + i] := buf[offset + i]; }
    }

    /** Copies bytes into the remaining room, and DidWrite. */
    method Append(bytes: seq<byte>)
      requires Valid() && size + |bytes| <= cap && buf != null
      modifies this`size, buf
      ensures Valid() && Contents() == old(Contents()) + bytes
    {
      CopyAt(offset + size, bytes);
      ghost var at := offset + size;
      assert buf[offset..at + |bytes|] == buf[..at][offset..] + buf[at..at + |bytes|];
      assert buf[..at][offset..] == old(buf[..offset + size])[offset..];
      size := size + |bytes|;
    }

    method CopyAt(at: nat, bytes: seq<byte>)
      requires buf != null && at + |bytes| <= buf.Length
      modifies buf
      ensures buf[at..at + |bytes|] == bytes && buf[..at] == old(buf[..at])
    {
      forall i | 0 <= i < |bytes| { buf[at + i] := bytes[i]; }
    }

    /** The first `len` bytes go; the rest stays, unless the offset wraps around. */
    method Consume(len: nat)
      requires Valid() && len <= size
      modifies this`offset, this`size, this`cap
      ensures Valid() && size == old(size) - len && cap == old(cap) - len && offset == (old(offset) + len) % 0x1_0000
      ensures old(offset) + len <= MAX_U16 || len == old(size) ==> Contents() == old(Contents())[len..]
      ensures old(NoWrap()) ==> NoWrap()
    {
      ghost var c, end := Contents(), offset + len;
      assert end % LIMIT == if end < LIMIT then end else end - LIMIT;
      if buf != null { assert buf[offset + len..offset + size] == c[len..]; }
      offset, size, cap := (offset + len) % LIMIT, size - len, cap - len;
    }
  }

  /** When a write takes `len` of `size` bytes that start at `offset`, the bytes that are left are
      the right ones, whatever they are, just if nothing is left or the offset does not wrap. */
  lemma ConsumeKeepsRest(offset: nat, size: nat, len: nat)
    requires offset <= MAX_U16 && len <= size
    ensures (forall b: seq<byte> :: |b| == offset + size ==> RestKept(b, offset, size, len))
      <==> len == size || offset + len <= MAX_U16
  {
    if len < size && offset + len > MAX_U16 {
      var b: seq<byte> := seq(offset + size, i => if i == offset + len then 1 else 0);
      var at := (offset + len) % LIMIT;
      assert at < offset + len;
      assert b[at..at + (size - len)][0] == 0 && b[offset + len..offset + size][0] == 1;
      assert !RestKept(b, offset, size, len);
    }
  }

  predicate RestKept(b: seq<byte>, offset: nat, size: nat, len: nat)
    requires |b| == offset + size && len <= size
  {
    var at := (offset + len) % LIMIT;
    at + (size - len) <= |b| && b[at..at + (size - len)] == b[offset..][len..]
  }

  /** The bytes that are left after a write are the right ones, however much it takes and
      whatever they are. */
  ghost predicate AlwaysKept(offset: nat, size: nat)
  {
    forall len: nat, b: seq<byte> :: 0 < len <= size && |b| == offset + size ==> RestKept(b, offset, size, len)
  }

  /** Before a flush: that is so just if the bytes end within the first 65536. */
  lemma FlushKeepsRest(offset: nat, size: nat)
    requires offset <= MAX_U16 && size > 0
    ensures AlwaysKept(offset, size) <==> offset + size <= 65536
  {
    hide RestKept;
    if offset + size <= LIMIT {
      forall len: nat, b: seq<byte> | 0 < len <= size && |b| == offset + size ensures RestKept(b, offset, size, len) {
        ConsumeKeepsRest(offset, size, len);
      }
    } else {
      ConsumeKeepsRest(offset, size, size - 1);
      var b: seq<byte> :| |b| == offset + size && !RestKept(b, offset, size, size - 1);
    }
  }

  /** Before anything is put into the buffer: when it gets room for `maxOut` bytes, that is so
      wherever they start and however many are put in, just if the room ends within the first
      65536 bytes even at the largest offset. */
  lemma RoomKeepsRest(maxOut: nat)
    requires 0 < maxOut <= MAX_U16
    ensures (forall offset: nat, size: nat :: offset < 8 && 0 < size <= maxOut ==> AlwaysKept(offset, size))
      <==> maxOut <= 65529
  {
    hide AlwaysKept;
    FlushKeepsRest(ALIGN_PAYLOAD - 1, maxOut);
    forall offset: nat, size: nat | offset < ALIGN_PAYLOAD && 0 < size <= maxOut
      ensures maxOut + ALIGN_PAYLOAD - 1 <= LIMIT ==> AlwaysKept(offset, size)
    {
      FlushKeepsRest(offset, size);
    }
  }

  /** An instance: 65535 bytes at offset 7, of which a write takes 65529. The buffer then stands at
      its start again, and what it would write next is not what was sealed. */
  lemma ShortWriteBreaksOrder(t: seq<byte>, rest: seq<byte>)
    ensures (7 + 65529) % LIMIT == 0
    ensures exists b: seq<byte> :: |b| == 7 + 65535 && t + b[7..7 + 65529] + b[0..6] + rest != t + b[7..7 + 65535] + rest
  {
    var b: seq<byte> := seq(7 + 65535, i => if i >= 7 + 65529 then 1 else 0);
    var x, y := t + b[7..7 + 65529] + b[0..6] + rest, t + b[7..7 + 65535] + rest;
    assert x[|t| + 65529] == b[0] == 0;
    assert y[|t| + 65529] == b[7 + 65529] == 1;
  }
}
