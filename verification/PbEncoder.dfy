/** pb_encode.c: the encoder over output streams, refining `PbEncodeSpec`. */
module PbEncoder {
  import opened Options
  import opened Bits
  import opened PbWire
  import opened PbSchema
  import opened PbEncodeSpec
  import opened PbOStream
  import opened PbIter

  // ------------------------------------------------------ what C memory can hold

  predicate TypedMsg(fields: seq<Field>, m: Msg)
    decreases fields, 1
  {
    |m| == |fields| && forall i :: 0 <= i < |fields| ==> TypedCell(fields[i], m[CellOf(fields, i)])
  }

  /** The cell is a struct member of the field's kind, and the descriptor's numbers fit pb_size_t. */
  predicate TypedCell(f: Field, cell: Cell)
    decreases f, 1
  {
    f.tag <= PB_SIZE_MAX && f.dataSize <= PB_SIZE_MAX &&
    match f.htype
    case Required => cell.Single? && Typed(f, cell.v)
    case Optional => (if HasFlag(f) then cell.Opt? else cell.Single?) && Typed(f, cell.v)
    case Repeated => cell.Arr? && Addressable(EncPayload(f, cell.vs)) && forall v :: v in cell.vs ==> Typed(f, v)
    case OneOf => cell.Union? && (cell.which == f.tag ==> Typed(f, cell.u))
  }

  predicate Typed(f: Field, v: Value)
    decreases f, 0
  {
    match f.ltype
    case LBytes => v.VBytes? && |v.b| <= PB_SIZE_MAX
    case LString => v.VBytes? && |v.b| <= f.dataSize
    case LFixedLengthBytes => v.VBytes? && |v.b| == f.dataSize
    case LSubmessage(fields) => v.VMsg? && Addressable(EncMsg(fields, v.m)) && TypedMsg(fields, v.m)
    case LFixed32 => v.VInt? && IntFits(f, v.i)
    case LFixed64 => v.VInt? && IntFits(f, v.i)
    case _ => v.VInt? && (IntSize(f.dataSize) ==> IntFits(f, v.i))
  }

  /** Sizes are of type size_t: nothing is as long as 2^63 bytes. */
  predicate Addressable(out: Option<seq<byte>>) { out.Some? ==> |out.value| < M63 }

  // ------------------------------------------------------ primitive encoders

  /** pb_encode_varint. */
  method EncodeVarint(stream: OStream, value: nat) returns (ok: bool)
    requires stream.Valid() && value < M64
    modifies stream, stream.Memory()
    ensures stream.Valid()
    ensures Emits(stream.Place(), old(stream.Now()), stream.Now(), ok, Some(Varint(value)))
  {
    hide Emits, Keeps, Varint;
    var bytes := VarintBytes(value);
    ok := stream.Write(bytes, |bytes|);
  }

  /** The buffer filled by pb_encode_varint. */
  method VarintBytes(value: nat) returns (bytes: seq<byte>)
    requires value < M64
    ensures bytes == Varint(value)
  {
    if value <= 0x7F {
      return [value];
    }
    Varint64Length(value);
    var buffer := new byte[10](_ => 0);
    var i: nat, rest: nat := 0, value;
    while rest != 0
      invariant i <= 10
      invariant rest > 0 ==> i + |Varint(rest)| <= 10 && buffer[..i] + Varint(rest) == Varint(value)
      invariant rest == 0 ==> i > 0 && buffer[i - 1] >= 128 && buffer[..i - 1] + [buffer[i - 1] - 128] == Varint(value)
    {
      GroupOut(buffer[..i], rest);
      buffer[i] := rest % 128 + 128;
      assert buffer[..i + 1] == buffer[..i] + [rest % 128 + 128];
      rest := rest / 128;
      i := i + 1;
    }
    buffer[i - 1] := buffer[i - 1] - 128;
    assert buffer[..i] == buffer[..i - 1] + [buffer[i - 1]];
    return buffer[..i];
  }

  lemma GroupOut(out: seq<byte>, rest: nat)
    ensures out + Varint(rest) ==
      if rest < 128 then out + [rest] else out + [rest % 128 + 128] + Varint(rest / 128)
    ensures |Varint(rest)| == if rest < 128 then 1 else 1 + |Varint(rest / 128)|
  {
    VarintStep(rest);
    hide Varint;
    if rest >= 128 {
      var first, more := [rest % 128 + 128], Varint(rest / 128);
      assert out + (first + more) == out + first + more;
    }
  }

  /** pb_encode_svarint. */
  method EncodeSvarint(stream: OStream, value: int) returns (ok: bool)
    requires stream.Valid() && -M63 <= value < M63
    modifies stream, stream.Memory()
    ensures stream.Valid()
    ensures Emits(stream.Place(), old(stream.Now()), stream.Now(), ok, Some(ZigZagInverts(value); Varint(ZigZag(value))))
  {
    hide Emits, Keeps, Varint;
    ZigZagInverts(value);
    var zigzagged: nat;
    if value < 0 {
      zigzagged := M64 - 1 - 2 * U64(value) % M64;
    } else {
      zigzagged := 2 * U64(value) % M64;
    }
    ok := EncodeVarint(stream, zigzagged);
  }

  lemma LittleEndian4(v: nat)
    ensures LittleEndian(v, 4) == [v % 256, v / 256 % 256, v / 256 / 256 % 256, v / 256 / 256 / 256 % 256]
  {
    LittleEndianStep(v, 4);
    LittleEndianStep(v / 256, 3);
    LittleEndianStep(v / 256 / 256, 2);
    LittleEndianStep(v / 256 / 256 / 256, 1);
  }

  lemma LittleEndianStep(v: nat, n: nat)
    requires n > 0
    ensures LittleEndian(v, n) == [v % 256] + LittleEndian(v / 256, n - 1)
  {}

  /** pb_encode_fixed32; each byte is the value shifted down and masked. */
  method EncodeFixed32(stream: OStream, value: nat) returns (ok: bool)
    requires stream.Valid() && value < M32
    modifies stream, stream.Memory()
    ensures stream.Valid()
    ensures Emits(stream.Place(), old(stream.Now()), stream.Now(), ok, Some(LittleEndian(value, 4)))
  {
    hide Emits, Keeps, LittleEndian;
    var bytes := [value % 256, value / 0x100 % 256, value / 0x1_0000 % 256, value / 0x100_0000 % 256];
    LittleEndian4(value);
    Shifts(value);
    ok := stream.Write(bytes, 4);
  }

  lemma Shifts(v: nat)
    ensures v / 256 / 256 == v / 0x1_0000
    ensures v / 256 / 256 / 256 == v / 0x100_0000
    ensures v / 256 / 256 / 256 / 256 == v / 0x1_0000_0000
  {}

  lemma LittleEndian8(v: nat)
    ensures LittleEndian(v, 8) == LittleEndian(v, 4) + LittleEndian(v / 0x1_0000_0000, 4)
  {
    hide LittleEndian;
    Shifts(v);
    LittleEndianStep(v, 8);
    LittleEndianStep(v / 256, 7);
    LittleEndianStep(v / 256 / 256, 6);
    LittleEndianStep(v / 256 / 256 / 256, 5);
    LittleEndian4(v);
    LittleEndian4(v / 0x1_0000_0000);
  }

  /** pb_encode_fixed64. */
  method EncodeFixed64(stream: OStream, value: nat) returns (ok: bool)
    requires stream.Valid() && value < M64
    modifies stream, stream.Memory()
    ensures stream.Valid()
    ensures Emits(stream.Place(), old(stream.Now()), stream.Now(), ok, Some(LittleEndian(value, 8)))
  {
    hide Emits, Keeps, LittleEndian;
    var high := value / 0x1_0000_0000;
    var bytes := [value % 256, value / 0x100 % 256, value / 0x1_0000 % 256, value / 0x100_0000 % 256,
                  high % 256, high / 0x100 % 256, high / 0x1_0000 % 256, high / 0x100_0000 % 256];
    LittleEndian8(value);
    LittleEndian4(value);
    Shifts(value);
    LittleEndian4(high);
    Shifts(high);
    ok := stream.Write(bytes, 8);
  }

  /** pb_encode_tag. */
  method EncodeTag(stream: OStream, wiretype: WireType, fieldNumber: nat) returns (ok: bool)
    requires stream.Valid() && fieldNumber < M32
    modifies stream, stream.Memory()
    ensures stream.Valid()
    ensures Emits(stream.Place(), old(stream.Now()), stream.Now(), ok, Some(Key(fieldNumber, wiretype)))
  {
    hide Emits, Keeps, Varint;
    ok := EncodeVarint(stream, 8 * fieldNumber + wiretype);
  }

  /** pb_encode_tag_for_field. */
  method EncodeTagForField(stream: OStream, f: Field) returns (ok: bool)
    requires stream.Valid() && f.tag < M32
    modifies stream, stream.Memory()
    ensures stream.Valid()
    ensures Emits(stream.Place(), old(stream.Now()), stream.Now(), ok, Some(Key(f.tag, WireTypeOf(f.ltype))))
  {
    hide Emits, Keeps, Varint, Key;
    var wiretype: WireType;
    match f.ltype {
      case LVarint => wiretype := WT_VARINT;
      case LUVarint => wiretype := WT_VARINT;
      case LSVarint => wiretype := WT_VARINT;
      case LFixed32 => wiretype := WT_32BIT;
      case LFixed64 => wiretype := WT_64BIT;
      case _ => wiretype := WT_STRING;
    }
    ok := EncodeTag(stream, wiretype, f.tag);
  }

  /** pb_encode_string. */
  method EncodeString(stream: OStream, data: seq<byte>) returns (ok: bool)
    requires stream.Valid() && |data| < M64
    modifies stream, stream.Memory()
    ensures stream.Valid()
    ensures Emits(stream.Place(), old(stream.Now()), stream.Now(), ok, LenPrefixed(Some(data)))
  {
    hide Emits, Keeps, Varint;
    ghost var s0 := stream.Now();
    ok := EncodeVarint(stream, |data|);
    if !ok {
      EmitsFailed(stream.Place(), s0, stream.Now(), Some(Varint(|data|)), Some(data));
      return;
    }
    ghost var s1 := stream.Now();
    ok := stream.Write(data, |data|);
    EmitsThen(stream.Place(), s0, s1, stream.Now(), ok, Some(Varint(|data|)), Some(data));
  }

  // ------------------------------------------------------ per-type encoders

  /** pb_enc_string: the length of the string is found by walking it. */
  method EncString(stream: OStream, f: Field, b: seq<byte>) returns (ok: bool)
    requires stream.Valid() && |b| <= f.dataSize <= PB_SIZE_MAX
    modifies stream, stream.Memory()
    ensures stream.Valid()
    ensures Emits(stream.Place(), old(stream.Now()), stream.Now(), ok, LenPrefixed(Some(CString(b, f.dataSize))))
  {
    hide Emits, Keeps, Varint;
    var size := StrLen(b, f.dataSize);
    ok := EncodeString(stream, b[..size]);
  }

  method StrLen(b: seq<byte>, maxSize: nat) returns (size: nat)
    requires |b| <= maxSize
    ensures size <= |b| && b[..size] == CString(b, maxSize)
  {
    size := 0;
    while size < |b| && b[size] != 0
      invariant size <= |b| && 0 !in b[..size]
    {
      size := size + 1;
    }
    CStringIs(b, maxSize, size);
  }

  lemma {:induction false} CStringIs(b: seq<byte>, limit: nat, size: nat)
    requires size <= |b| <= limit && 0 !in b[..size] && (size < |b| ==> b[size] == 0)
    ensures CString(b, limit) == b[..size]
    decreases size
  {
    if size > 0 {
      assert b[0] in b[..size];
      assert b[1..][..size - 1] == b[..size][1..];
      CStringIs(b[1..], limit - 1, size - 1);
      assert b[..size] == [b[0]] + b[1..][..size - 1];
    }
  }

  /** The PB_ENCODERS table: the encoder for the field's type. */
  method EncodeValue(stream: OStream, f: Field, v: Value) returns (ok: bool)
    requires stream.Valid() && f.dataSize <= PB_SIZE_MAX && Typed(f, v)
    modifies stream, stream.Memory()
    ensures stream.Valid()
    ensures Emits(stream.Place(), old(stream.Now()), stream.Now(), ok, EncValue(f, v))
    decreases f, 0
  {
    hide Emits, Keeps, Varint, LittleEndian, CString, EncMsg, TypedMsg;
    match f.ltype {
      case LVarint =>
        ok := EncInt(stream, f, v.i);
      case LUVarint =>
        ok := EncInt(stream, f, v.i);
      case LSVarint =>
        ok := EncInt(stream, f, v.i);
      case LFixed32 =>
        ok := EncodeFixed32(stream, v.i);
      case LFixed64 =>
        ok := EncodeFixed64(stream, v.i);
      case LBytes =>
        if |v.b| + BYTES_HEADER > f.dataSize {
          ok := Refuse(stream);
        } else {
          ok := EncodeString(stream, v.b);
        }
      case LString =>
        ok := EncString(stream, f, v.b);
      case LFixedLengthBytes =>
        ok := EncodeString(stream, v.b);
      case LSubmessage(fields) =>
        ok := EncodeSubmessage(stream, fields, v.m);
    }
  }

  /** PB_RETURN_ERROR before anything is written. */
  method Refuse(stream: OStream) returns (ok: bool)
    requires stream.Valid()
    ensures stream.Valid() && !ok
    ensures Emits(stream.Place(), stream.Now(), stream.Now(), false, None)
  {
    return false;
  }

  /** pb_enc_varint, pb_enc_uvarint and pb_enc_svarint. */
  method EncInt(stream: OStream, f: Field, i: int) returns (ok: bool)
    requires stream.Valid() && (f.ltype.LVarint? || f.ltype.LUVarint? || f.ltype.LSVarint?)
    requires IntSize(f.dataSize) ==> IntFits(f, i)
    modifies stream, stream.Memory()
    ensures stream.Valid()
    ensures Emits(stream.Place(), old(stream.Now()), stream.Now(), ok,
              if IntSize(f.dataSize) then Some(IntBytes(f, i)) else None)
  {
    hide Emits, Keeps, Varint, ZigZag;
    if f.dataSize != 1 && f.dataSize != 2 && f.dataSize != 4 && f.dataSize != 8 {
      ok := Refuse(stream);
    } else if f.ltype.LSVarint? {
      ok := EncodeSvarint(stream, i);
    } else {
      ok := EncodeVarint(stream, U64(i));
    }
  }

  /** pb_encode_submessage: size the message with a sizing stream, then write it through a
      stream limited to that size. The size found first is always the size written. */
  method EncodeSubmessage(stream: OStream, fields: seq<Field>, m: Msg) returns (ok: bool)
    requires stream.Valid() && TypedMsg(fields, m) && Addressable(EncMsg(fields, m))
    modifies stream, stream.Memory()
    ensures stream.Valid()
    ensures Emits(stream.Place(), old(stream.Now()), stream.Now(), ok, LenPrefixed(EncMsg(fields, m)))
    decreases fields, 5
  {
    hide Keeps, Varint, EncMsg, TypedMsg;
    ghost var spec := EncMsg(fields, m);
    var sizing := new OStream.Sizing();
    ok := Encode(sizing, fields, m);
    if !ok {
      EmitsRefused(stream.Place(), stream.Now());
      return;
    }
    var size := sizing.bytesWritten;
    ghost var s0 := stream.Now();
    ok := EncodeVarint(stream, size);
    if !ok {
      hide Emits;
      EmitsFailed(stream.Place(), s0, stream.Now(), Some(Varint(size)), spec);
      return;
    }
    ghost var s1 := stream.Now();
    if stream.buf == null {
      ok := stream.Write([], size);
    } else if stream.bytesWritten + size > stream.maxSize {
      ok := false;
    } else {
      ok := EncodeInto(stream, fields, m, size);
    }
    EmitsThen(stream.Place(), s0, s1, stream.Now(), ok, Some(Varint(size)), spec);
  }

  /** The second pass, over a substream of `size` bytes. */
  method EncodeInto(stream: OStream, fields: seq<Field>, m: Msg, size: nat) returns (ok: bool)
    requires stream.Valid() && TypedMsg(fields, m)
    requires EncMsg(fields, m).Some? && |EncMsg(fields, m).value| == size
    requires stream.buf != null && stream.bytesWritten + size <= stream.maxSize
    modifies stream, stream.Memory()
    ensures stream.Valid() && ok
    ensures Emits(stream.Place(), old(stream.Now()), stream.Now(), ok, EncMsg(fields, m))
    decreases fields, 4
  {
    hide Varint, EncMsg, TypedMsg, Keeps;
    ghost var s0 := stream.Now();
    var substream := new OStream.FromBuffer(stream.buf, stream.state, size);
    ok := Encode(substream, fields, m);
    stream.bytesWritten := stream.bytesWritten + substream.bytesWritten;
    stream.state := substream.state;
    if substream.bytesWritten != size {
      assert false;
    }
    SubstreamEmits(stream.Place(), s0, stream.Now(), substream.Place(), EncMsg(fields, m).value);
  }

  /** What was written through a substream, seen from the parent. */
  lemma SubstreamEmits(w: Window, s0: Snap, s1: Snap, sub: Window, out: seq<byte>)
    requires !w.sizing && Inside(w, s0) && s0.written + |out| <= w.max
    requires sub == Window(false, w.start + s0.written, |out|)
    requires Emits(sub, Snap(s0.mem, 0), Snap(s1.mem, |out|), true, Some(out))
    requires s1.written == s0.written + |out|
    ensures Emits(w, s0, s1, true, Some(out))
  {
    var hi := sub.start + sub.max;
    assert s1.mem[w.start + w.max..] == s1.mem[hi..][w.start + w.max - hi..];
    assert s0.mem[w.start + w.max..] == s0.mem[hi..][w.start + w.max - hi..];
  }

  // ------------------------------------------------------ fields

  /** pb_check_proto3_default_value. An integer member is zero if all its bytes are. */
  method CheckProto3Default(f: Field, cell: Cell) returns (zero: bool)
    requires TypedCell(f, cell)
    ensures zero == IsZero(f, cell)
    decreases f, 6
  {
    hide TypedMsg, EncMsg, EncPayload, AllZero;
    if f.htype.Required? {
      return false;
    } else if f.htype.Repeated? {
      return |cell.vs| == 0;
    } else if f.htype.OneOf? {
      return cell.which == 0;
    } else if f.sizeOffset != 0 {
      return !cell.has;
    }
    if f.ltype.LBytes? {
      return |cell.v.b| == 0;
    } else if f.ltype.LString? {
      return cell.v.b == [] || cell.v.b[0] == 0;
    } else if f.ltype.LFixedLengthBytes? {
      return f.dataSize == 0;
    } else if f.ltype.LSubmessage? {
      zero := CheckAllDefault(f.ltype.fields, cell.v.m);
    } else {
      return cell.v.i == 0;
    }
  }

  /** Its loop over the fields of a submessage. */
  method CheckAllDefault(fields: seq<Field>, m: Msg) returns (zero: bool)
    requires TypedMsg(fields, m)
    ensures |m| == |fields| && zero == AllZero(fields, m, 0)
    decreases fields, 7
  {
    hide IsZero, TypedCell, CellOf, RequiredBefore;
    var iter := new FieldIter(fields);
    var more := fields != [];
    ghost var k := 0;
    while more
      invariant iter.Valid() && iter.start == fields && k <= |fields|
      invariant more ==> iter.pos == k < |fields|
      invariant !more ==> k == |fields|
      invariant AllZero(fields, m, 0) == AllZero(fields, m, k)
      decreases |fields| - k
    {
      var pos := iter.pos;
      var ok := CheckProto3Default(fields[pos], m[CellOf(fields, pos)]);
      if !ok {
        return false;
      }
      more := iter.Next();
      k := k + 1;
    }
    return true;
  }

  // ------------------------------------------------------ arrays

  lemma CatAssoc(a: Option<seq<byte>>, b: Option<seq<byte>>, c: Option<seq<byte>>)
    ensures Cat(Cat(a, b), c) == Cat(a, Cat(b, c))
  {
    if a.Some? && b.Some? && c.Some? { assert a.value + b.value + c.value == a.value + (b.value + c.value); }
  }

  lemma {:induction false} PayloadFrom(f: Field, vs: seq<Value>, i: nat)
    requires i < |vs|
    ensures EncPayload(f, vs[i..]) == Cat(EncValue(f, vs[i]), EncPayload(f, vs[i + 1..]))
  {
    hide EncValue;
    assert vs[i..][1..] == vs[i + 1..];
  }

  lemma ItemsFrom(f: Field, vs: seq<Value>, i: nat)
    requires i < |vs|
    ensures EncItems(f, vs[i..]) ==
      Cat(Cat(Some(Key(f.tag, WireTypeOf(f.ltype))), EncValue(f, vs[i])), EncItems(f, vs[i + 1..]))
  {
    hide EncValue, Key;
    assert vs[i..][1..] == vs[i + 1..];
  }

  /** Progress of a loop that emits the parts of `whole`: `done` is out, `rest` is to come. */
  ghost predicate Emitting(w: Window, s0: Snap, s1: Snap, done: Option<seq<byte>>, rest: Option<seq<byte>>, whole: Option<seq<byte>>)
  {
    Emits(w, s0, s1, true, done) && Cat(done, rest) == whole
  }

  lemma EmittingStart(w: Window, s: Snap, whole: Option<seq<byte>>)
    requires Inside(w, s)
    ensures Emitting(w, s, s, Some([]), whole, whole)
  {
    EmitsNothing(w, s);
    if whole.Some? { assert [] + whole.value == whole.value; }
  }

  lemma EmittingStep(w: Window, s0: Snap, s1: Snap, s2: Snap, done: Option<seq<byte>>, part: Option<seq<byte>>, rest: Option<seq<byte>>, whole: Option<seq<byte>>, ok: bool)
    requires Emitting(w, s0, s1, done, Cat(part, rest), whole) && Emits(w, s1, s2, ok, part)
    ensures ok ==> Emitting(w, s0, s2, Cat(done, part), rest, whole)
    ensures !ok ==> Emits(w, s0, s2, false, whole)
  {
    EmitsThen(w, s0, s1, s2, ok, done, part);
    CatAssoc(done, part, rest);
    hide Emits;
    if !ok { EmitsFailed(w, s0, s2, Cat(done, part), rest); }
  }

  lemma EmittingEnd(w: Window, s0: Snap, s1: Snap, done: Option<seq<byte>>, whole: Option<seq<byte>>)
    requires Emitting(w, s0, s1, done, Some([]), whole)
    ensures Emits(w, s0, s1, true, whole)
  {
    hide Keeps;
    if done.Some? { assert done.value + [] == done.value; }
  }

  /** The values of an array without keys, as in both loops over a packed array. */
  method EncodePayload(stream: OStream, f: Field, vs: seq<Value>) returns (ok: bool)
    requires stream.Valid() && f.dataSize <= PB_SIZE_MAX && forall v :: v in vs ==> Typed(f, v)
    modifies stream, stream.Memory()
    ensures stream.Valid()
    ensures Emits(stream.Place(), old(stream.Now()), stream.Now(), ok, EncPayload(f, vs))
    decreases f, 1
  {
    hide Emits, EncValue, Typed, Emitting;
    ghost var w, s0, whole, done := stream.Place(), stream.Now(), EncPayload(f, vs), Some([]);
    EmittingStart(w, s0, whole);
    assert vs[0..] == vs;
    for i := 0 to |vs|
      invariant stream.Valid()
      invariant Emitting(w, s0, stream.Now(), done, EncPayload(f, vs[i..]), whole)
    {
      ghost var s1 := stream.Now();
      PayloadFrom(f, vs, i);
      ok := EncodeValue(stream, f, vs[i]);
      EmittingStep(w, s0, s1, stream.Now(), done, EncValue(f, vs[i]), EncPayload(f, vs[i + 1..]), whole, ok);
      if !ok {
        return;
      }
      done := Cat(done, EncValue(f, vs[i]));
    }
    EmittingEnd(w, s0, stream.Now(), done, whole);
    return true;
  }

  /** The values of an array under their keys. */
  method EncodeItems(stream: OStream, f: Field, vs: seq<Value>) returns (ok: bool)
    requires stream.Valid() && f.tag <= PB_SIZE_MAX && f.dataSize <= PB_SIZE_MAX && forall v :: v in vs ==> Typed(f, v)
    modifies stream, stream.Memory()
    ensures stream.Valid()
    ensures Emits(stream.Place(), old(stream.Now()), stream.Now(), ok, EncItems(f, vs))
    decreases f, 2
  {
    hide Emits, EncValue, Typed, Emitting, Key;
    ghost var w, s0, whole, done := stream.Place(), stream.Now(), EncItems(f, vs), Some([]);
    EmittingStart(w, s0, whole);
    assert vs[0..] == vs;
    for i := 0 to |vs|
      invariant stream.Valid()
      invariant Emitting(w, s0, stream.Now(), done, EncItems(f, vs[i..]), whole)
    {
      ghost var s1 := stream.Now();
      ghost var part := Cat(Some(Key(f.tag, WireTypeOf(f.ltype))), EncValue(f, vs[i]));
      ItemsFrom(f, vs, i);
      ok := EncodeItem(stream, f, vs[i]);
      EmittingStep(w, s0, s1, stream.Now(), done, part, EncItems(f, vs[i + 1..]), whole, ok);
      if !ok {
        return;
      }
      done := Cat(done, part);
    }
    EmittingEnd(w, s0, stream.Now(), done, whole);
    return true;
  }

  /** A key and a value. */
  method EncodeItem(stream: OStream, f: Field, v: Value) returns (ok: bool)
    requires stream.Valid() && f.tag <= PB_SIZE_MAX && f.dataSize <= PB_SIZE_MAX && Typed(f, v)
    modifies stream, stream.Memory()
    ensures stream.Valid()
    ensures Emits(stream.Place(), old(stream.Now()), stream.Now(), ok,
              Cat(Some(Key(f.tag, WireTypeOf(f.ltype))), EncValue(f, v)))
    decreases f, 1
  {
    hide Emits, EncValue, Typed, Key;
    ghost var w, s0, key := stream.Place(), stream.Now(), Some(Key(f.tag, WireTypeOf(f.ltype)));
    ok := EncodeTagForField(stream, f);
    if !ok {
      EmitsFailed(w, s0, stream.Now(), key, EncValue(f, v));
      return;
    }
    ghost var s1 := stream.Now();
    ok := EncodeValue(stream, f, v);
    EmitsThen(w, s0, s1, stream.Now(), ok, key, EncValue(f, v));
  }

  lemma {:induction false} FixedPayloadSize(f: Field, vs: seq<Value>)
    requires f.ltype.LFixed32? || f.ltype.LFixed64?
    requires forall v :: v in vs ==> Typed(f, v)
    ensures EncPayload(f, vs).Some?
    ensures |EncPayload(f, vs).value| == (if f.ltype.LFixed32? then 4 else 8) * |vs|
    decreases |vs|
  {
    hide LittleEndian;
    if vs != [] {
      assert Typed(f, vs[0]);
      FixedPayloadSize(f, vs[1..]);
    }
  }

  /** The total size of a packed array, found before it is written. */
  method PackedSize(f: Field, vs: seq<Value>) returns (ok: bool, size: nat)
    requires f.dataSize <= PB_SIZE_MAX && Packable(f.ltype) && forall v :: v in vs ==> Typed(f, v)
    ensures ok <==> EncPayload(f, vs).Some?
    ensures ok ==> size == |EncPayload(f, vs).value|
    decreases f, 2
  {
    hide Keeps, EncPayload, Typed;
    if f.ltype.LFixed32? {
      FixedPayloadSize(f, vs);
      return true, 4 * |vs|;
    } else if f.ltype.LFixed64? {
      FixedPayloadSize(f, vs);
      return true, 8 * |vs|;
    }
    var sizestream := new OStream.Sizing();
    ok := EncodePayload(sizestream, f, vs);
    size := sizestream.bytesWritten;
  }

  /** encode_array. */
  method EncodeArray(stream: OStream, f: Field, vs: seq<Value>) returns (ok: bool)
    requires stream.Valid() && f.tag <= PB_SIZE_MAX && f.dataSize <= PB_SIZE_MAX
    requires Addressable(EncPayload(f, vs)) && forall v :: v in vs ==> Typed(f, v)
    modifies stream, stream.Memory()
    ensures stream.Valid()
    ensures Emits(stream.Place(), old(stream.Now()), stream.Now(), ok,
              if |vs| > f.arraySize then None
              else if Packable(f.ltype) then EncPacked(f, vs) else EncItems(f, vs))
    decreases f, 5
  {
    hide Keeps, EncPayload, Typed, Varint;
    if |vs| == 0 {
      EmitsNothing(stream.Place(), stream.Now());
      return true;
    }
    if |vs| > f.arraySize {
      ok := Refuse(stream);
      return;
    }
    hide Emits;
    if Packable(f.ltype) {
      ok := EncodePackedArray(stream, f, vs);
    } else {
      ok := EncodeItems(stream, f, vs);
    }
  }

  method EncodePackedArray(stream: OStream, f: Field, vs: seq<Value>) returns (ok: bool)
    requires stream.Valid() && f.tag <= PB_SIZE_MAX && f.dataSize <= PB_SIZE_MAX && vs != [] && Packable(f.ltype)
    requires Addressable(EncPayload(f, vs)) && forall v :: v in vs ==> Typed(f, v)
    modifies stream, stream.Memory()
    ensures stream.Valid()
    ensures Emits(stream.Place(), old(stream.Now()), stream.Now(), ok, EncPacked(f, vs))
    decreases f, 4
  {
    hide Emits, EncPayload, Typed, Key;
    ghost var w, s0, key, p := stream.Place(), stream.Now(), Some(Key(f.tag, WT_STRING)), EncPayload(f, vs);
    ok := EncodeTag(stream, WT_STRING, f.tag);
    if !ok {
      EmitsFailed(w, s0, stream.Now(), key, LenPrefixed(p));
      return;
    }
    ghost var s1 := stream.Now();
    ok := EncodePackedBody(stream, f, vs);
    EmitsThen(w, s0, s1, stream.Now(), ok, key, LenPrefixed(p));
  }

  /** The length and the packed values; a sizing stream only counts the latter. */
  method EncodePackedBody(stream: OStream, f: Field, vs: seq<Value>) returns (ok: bool)
    requires stream.Valid() && f.dataSize <= PB_SIZE_MAX && Packable(f.ltype)
    requires Addressable(EncPayload(f, vs)) && forall v :: v in vs ==> Typed(f, v)
    modifies stream, stream.Memory()
    ensures stream.Valid()
    ensures Emits(stream.Place(), old(stream.Now()), stream.Now(), ok, LenPrefixed(EncPayload(f, vs)))
    decreases f, 3
  {
    hide Emits, EncPayload, Typed, Varint;
    ghost var w, s0, p := stream.Place(), stream.Now(), EncPayload(f, vs);
    var size: nat;
    ok, size := PackedSize(f, vs);
    if !ok {
      EmitsRefused(w, s0);
      return;
    }
    ok := EncodeVarint(stream, size);
    if !ok {
      EmitsFailed(w, s0, stream.Now(), Some(Varint(size)), p);
      return;
    }
    ghost var s1 := stream.Now();
    if stream.buf == null {
      ok := stream.Write([], size);
    } else {
      ok := EncodePayload(stream, f, vs);
    }
    EmitsThen(w, s0, s1, stream.Now(), ok, Some(Varint(size)), p);
  }

  // ------------------------------------------------------ basic fields and messages

  /** encode_basic_field. */
  method EncodeBasicField(stream: OStream, f: Field, cell: Cell) returns (ok: bool)
    requires stream.Valid() && TypedCell(f, cell)
    modifies stream, stream.Memory()
    ensures stream.Valid()
    ensures Emits(stream.Place(), old(stream.Now()), stream.Now(), ok, EncField(f, cell))
    decreases f, 8
  {
    hide Keeps, Typed, EncPayload, EncItems, EncPacked, IsZero;
    var has := true;
    match f.htype {
      case Required =>
      case Optional =>
        if f.sizeOffset != 0 {
          has := cell.has;
        } else {
          var zero := CheckProto3Default(f, cell);
          has := !zero;
        }
      case Repeated =>
        ok := EncodeArray(stream, f, cell.vs);
        return;
      case OneOf =>
        has := cell.which == f.tag;
    }
    assert Items(f, cell) == Some(if has then [if cell.Union? then cell.u else cell.v] else []);
    if has {
      var v := if cell.Union? then cell.u else cell.v;
      SingleItem(f, v);
      ok := EncodeItem(stream, f, v);
    } else {
      NoItem(f);
      EmitsNothing(stream.Place(), stream.Now());
      ok := true;
    }
  }

  lemma SingleItem(f: Field, v: Value)
    ensures EncItems(f, [v]) == Cat(Some(Key(f.tag, WireTypeOf(f.ltype))), EncValue(f, v))
  {
    hide EncValue, Key;
    var e := Cat(Some(Key(f.tag, WireTypeOf(f.ltype))), EncValue(f, v));
    assert [v][1..] == [];
    assert EncItems(f, []) == Some([]);
    if e.Some? { assert e.value + [] == e.value; }
  }

  lemma NoItem(f: Field)
    ensures EncItems(f, []) == Some([])
  {}

  /** pb_encode: every field in table order. */
  method Encode(stream: OStream, fields: seq<Field>, m: Msg) returns (ok: bool)
    requires stream.Valid() && TypedMsg(fields, m)
    modifies stream, stream.Memory()
    ensures stream.Valid()
    ensures Emits(stream.Place(), old(stream.Now()), stream.Now(), ok, EncMsg(fields, m))
    decreases fields, 3
  {
    hide Emits, Emitting, EncField, TypedCell, CellOf, RequiredBefore;
    var iter := new FieldIter(fields);
    ghost var w, s0, whole, done := stream.Place(), stream.Now(), EncMsg(fields, m), Some([]);
    EmittingStart(w, s0, whole);
    ghost var k := 0;
    var more := fields != [];
    while more
      invariant stream.Valid() && iter.Valid() && iter.start == fields && k <= |fields|
      invariant if more then iter.pos == k < |fields| else k == |fields|
      invariant Emitting(w, s0, stream.Now(), done, EncFrom(fields, m, k), whole)
      decreases |fields| - k
    {
      ghost var s1 := stream.Now();
      var f, cell := fields[iter.pos], m[CellOf(fields, iter.pos)];
      ok := EncodeBasicField(stream, f, cell);
      EmittingStep(w, s0, s1, stream.Now(), done, EncField(f, cell), EncFrom(fields, m, k + 1), whole, ok);
      if !ok {
        return;
      }
      done := Cat(done, EncField(f, cell));
      more := iter.Next();
      k := k + 1;
    }
    EmittingEnd(w, s0, stream.Now(), done, whole);
    return true;
  }

  /** pb_get_encoded_size: what the writing pass will need. */
  method GetEncodedSize(fields: seq<Field>, m: Msg) returns (ok: bool, size: nat)
    requires TypedMsg(fields, m)
    ensures ok <==> EncMsg(fields, m).Some?
    ensures ok ==> size == |EncMsg(fields, m).value|
  {
    hide Keeps, EncMsg, TypedMsg;
    var stream := new OStream.Sizing();
    ok := Encode(stream, fields, m);
    size := stream.bytesWritten;
  }

  /** pb_encode_nullterminated. */
  method EncodeNullTerminated(stream: OStream, fields: seq<Field>, m: Msg) returns (ok: bool)
    requires stream.Valid() && TypedMsg(fields, m)
    modifies stream, stream.Memory()
    ensures stream.Valid()
    ensures Emits(stream.Place(), old(stream.Now()), stream.Now(), ok, Cat(EncMsg(fields, m), Some([0])))
  {
    hide Emits, EncMsg, TypedMsg;
    ghost var w, s0 := stream.Place(), stream.Now();
    ok := Encode(stream, fields, m);
    if !ok {
      EmitsFailed(w, s0, stream.Now(), EncMsg(fields, m), Some([0]));
      return;
    }
    ghost var s1 := stream.Now();
    ok := stream.Write([0], 1);
    EmitsThen(w, s0, s1, stream.Now(), ok, EncMsg(fields, m), Some([0]));
  }
}
