/** pb_ostream_t: an output stream over a caller's buffer, or a sizing stream that only counts. */
module PbOStream {
  import opened Options
  import opened Bits
  import opened PbWire
  import opened PbEncodeSpec

  /** What is fixed about a stream: a null callback, the place of its window and its limit. */
  datatype Window = Window(sizing: bool, start: nat, max: nat)

  /** What changes: the memory behind it and the number of bytes written. */
  datatype Snap = Snap(mem: seq<byte>, written: nat)

  predicate Inside(w: Window, s: Snap)
  {
    w.sizing || (s.written <= w.max && w.start + w.max <= |s.mem|)
  }

  /** Emitting `out` succeeds exactly if there is such an output and it fits; then it stands
      right behind what was written before. Nothing before it and nothing at or above the
      limit changes, successful or not. */
  predicate Emits(w: Window, s0: Snap, s1: Snap, ok: bool, out: Option<seq<byte>>)
  {
    && Inside(w, s0) && Inside(w, s1)
    && (ok <==> out.Some? && (w.sizing || s0.written + |out.value| <= w.max))
    && (ok ==> s1.written == s0.written + |out.value|)
    && s0.written <= s1.written
    && (!w.sizing ==> Keeps(w, s0, s1, if ok then out.value else []))
  }

  predicate Keeps(w: Window, s0: Snap, s1: Snap, out: seq<byte>)
    requires !w.sizing && Inside(w, s0)
  {
    && |s1.mem| == |s0.mem|
    && s1.mem[..w.start + s0.written] == s0.mem[..w.start + s0.written]
    && s1.mem[w.start + w.max..] == s0.mem[w.start + w.max..]
    && (s0.written + |out| <= w.max ==> s1.mem[w.start + s0.written..w.start + s0.written + |out|] == out)
  }

  lemma EmitsNothing(w: Window, s: Snap)
    requires Inside(w, s)
    ensures Emits(w, s, s, true, Some([]))
  {}

  lemma EmitsRefused(w: Window, s: Snap)
    requires Inside(w, s)
    ensures Emits(w, s, s, false, None)
  {}

  /** Two outputs in a row are their concatenation. */
  lemma EmitsThen(w: Window, s0: Snap, s1: Snap, s2: Snap, ok: bool, a: Option<seq<byte>>, b: Option<seq<byte>>)
    requires Emits(w, s0, s1, true, a) && Emits(w, s1, s2, ok, b)
    ensures Emits(w, s0, s2, ok, Cat(a, b))
  {
    if !w.sizing {
      KeepsThen(w, s0, s1, s2, a.value, if ok then b.value else []);
    }
  }

  lemma KeepsThen(w: Window, s0: Snap, s1: Snap, s2: Snap, a: seq<byte>, b: seq<byte>)
    requires !w.sizing && Inside(w, s0) && Inside(w, s1) && s1.written == s0.written + |a|
    requires Keeps(w, s0, s1, a) && Keeps(w, s1, s2, b)
    ensures Keeps(w, s0, s2, a + b) && Keeps(w, s0, s2, [])
  {
    var p, q := w.start + s0.written, w.start + s1.written;
    assert s2.mem[..p] == s2.mem[..q][..p];
    assert s1.mem[..q][..p] == s1.mem[..p];
    assert s1.mem[..q][p..q] == s1.mem[p..q] == a;
    if s1.written + |b| <= w.max {
      assert s2.mem[p..q + |b|] == s2.mem[..q][p..q] + s2.mem[q..q + |b|];
    }
  }

  /** A failed output makes the whole fail. */
  lemma EmitsFailed(w: Window, s0: Snap, s1: Snap, a: Option<seq<byte>>, b: Option<seq<byte>>)
    requires Emits(w, s0, s1, false, a)
    ensures Emits(w, s0, s1, false, Cat(a, b))
  {}

  class OStream {
    const buf: array?<byte>
    const start: nat
    const maxSize: nat
    var state: nat
    var bytesWritten: nat

    ghost predicate Valid()
      reads this
    {
      buf != null ==> state == start + bytesWritten && bytesWritten <= maxSize && start + maxSize <= buf.Length
    }

    ghost function Memory(): set<object> { if buf == null then {} else {buf} }

    ghost function Place(): Window { Window(buf == null, start, maxSize) }

    ghost function Now(): (s: Snap)
      reads this, Memory()
      ensures Valid() ==> Inside(Place(), s)
    {
      Snap(if buf == null then [] else buf[..], bytesWritten)
    }

    /** pb_ostream_from_buffer, for a window of a buffer. */
    constructor FromBuffer(b: array<byte>, at: nat, size: nat)
      requires at + size <= b.Length
      ensures Valid() && buf == b && start == at && maxSize == size && bytesWritten == 0
    {
      buf, start, maxSize, state, bytesWritten := b, at, size, at, 0;
    }

    /** PB_OSTREAM_SIZING. */
    constructor Sizing()
      ensures Valid() && buf == null && bytesWritten == 0
    {
      buf, start, maxSize, state, bytesWritten := null, 0, 0, 0, 0;
    }

    /** buf_write. */
    method BufWrite(data: seq<byte>)
      requires buf != null && state + |data| <= buf.Length
      modifies this`state, buf
      ensures state == old(state) + |data|
      ensures buf[..] == old(buf[..state]) + data + old(buf[state + |data|..])
    {
      var dest := state;
      state := dest + |data|;
      for i := 0 to |data|
        invariant state == dest + |data|
        invariant buf[..] == old(buf[..dest]) + data[..i] + old(buf[dest + i..])
      {
        WriteOne(old(buf[..]), data, dest, i);
        buf[dest + i] := data[i];
      }
    }

    static lemma WriteOne(mem: seq<byte>, data: seq<byte>, dest: nat, i: nat)
      requires i < |data| && dest + |data| <= |mem|
      ensures (mem[..dest] + data[..i] + mem[dest + i..])[dest + i := data[i]] ==
        mem[..dest] + data[..i + 1] + mem[dest + i + 1..]
    {}

    /** pb_write; a sizing stream looks at `count` only. */
    method Write(data: seq<byte>, count: nat) returns (ok: bool)
      requires Valid() && (buf != null ==> |data| == count)
      modifies this, Memory()
      ensures Valid()
      ensures forall out: seq<byte> :: |out| == count && (buf != null ==> out == data) ==>
        Emits(Place(), old(Now()), Now(), ok, Some(out))
      ensures !ok ==> Now() == old(Now())
    {
      if buf != null {
        if bytesWritten + count > maxSize {
          return false;
        }
        BufWrite(data);
      }
      bytesWritten := bytesWritten + count;
      return true;
    }
  }
}
