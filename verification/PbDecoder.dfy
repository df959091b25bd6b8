/** pb_decode.c: the decoder over input streams, refining `PbDecodeSpec`. The destination
    struct is a message value that is passed in and handed back. */
module PbDecoder {
  import opened Bits
  import opened PbWire
  import opened PbSchema
  import opened PbDecodeSpec
  import opened PbRoundTrip
  import opened PbIStream
  import opened PbIter
  import opened PbSeen

  // ------------------------------------------------------ destination structs

  /** The struct has the members of its descriptors. */
  predicate Shaped(fields: seq<Field>, m: Msg)
    decreases fields, 1
  {
    |m| == |fields| && forall i :: 0 <= i < |fields| ==> ShapedCell(fields[i], m[CellOf(fields, i)])
  }

  predicate ShapedCell(f: Field, cell: Cell)
    decreases f, 1
  {
    match f.htype
    case Required => cell.Single? && ShapedValue(f, cell.v)
    case Optional => (if HasFlag(f) then cell.Opt? else cell.Single?) && ShapedValue(f, cell.v)
    case Repeated => cell.Arr?
    case OneOf => cell.Union?
  }

  predicate ShapedValue(f: Field, v: Value)
    decreases f, 0
  {
    f.ltype.LSubmessage? ==> v.VMsg? && Shaped(f.ltype.fields, v.m)
  }

  lemma ShapedUpdate(fields: seq<Field>, m: Msg, i: nat, cell: Cell)
    requires Shaped(fields, m) && i < |fields| && ShapedCell(fields[i], cell)
    ensures Shaped(fields, m[CellOf(fields, i) := cell])
  {
    hide ShapedValue;
    var c := CellOf(fields, i);
    CellOfProperties(fields, i);
    forall k | 0 <= k < |fields| ensures ShapedCell(fields[k], m[c := cell][CellOf(fields, k)]) {
      if k != i && CellOf(fields, k) == c { CellsApart(fields, i, k); }
    }
  }

  lemma DefaultsShaped(fields: seq<Field>)
    ensures Shaped(fields, Defaults(fields))
    decreases fields, 1
  {
    hide ShapedValue, InitialValue, Defaults, CellOf;
    forall i | 0 <= i < |fields| ensures ShapedCell(fields[i], Defaults(fields)[CellOf(fields, i)]) {
      DefaultsAtCell(fields, i);
      InitialShaped(fields[i]);
    }
  }

  lemma InitialShaped(f: Field)
    ensures ShapedValue(f, InitialValue(f))
    decreases f, 0
  {
    hide Shaped, Defaults;
    if f.ltype.LSubmessage? { DefaultsShaped(f.ltype.fields); }
  }

  /** pb_message_set_to_defaults, on a struct whose members are all unset. */
  method SetToDefaults(fields: seq<Field>) returns (m: Msg)
    ensures m == Defaults(fields)
    decreases fields, 1
  {
    hide InitialValue, RequiredBefore;
    m := seq(|fields|, _ => Shared);
    var iter := new FieldIter(fields);
    var more := fields != [];
    ghost var k := 0;
    while more
      invariant iter.Valid() && iter.start == fields && k <= |fields| && |m| == |fields|
      invariant if more then iter.pos == k < |fields| else k == |fields|
      invariant forall j :: 0 <= j < k ==> m[j] == InitialCell(fields, j)
      invariant forall j :: k <= j < |fields| ==> m[j] == Shared
      decreases |fields| - k
    {
      var pos := iter.pos;
      var cell := FieldSetToDefault(fields[pos]);
      var c := CellOf(fields, pos);
      CellOfProperties(fields, pos);
      m := m[c := cell];
      more := iter.Next();
      k := k + 1;
    }
  }

  /** pb_field_set_to_default. */
  method FieldSetToDefault(f: Field) returns (cell: Cell)
    ensures cell == InitialCellOf(f)
    decreases f, 0
  {
    hide Defaults;
    var v := VInt(0);
    if f.htype.Required? || f.htype.Optional? {
      if f.ltype.LSubmessage? {
        var sub := SetToDefaults(f.ltype.fields);
        v := VMsg(sub);
      } else {
        v := f.initial;
      }
    }
    match f.htype
    case Required => cell := Single(v);
    case Optional => cell := if f.sizeOffset != 0 then Opt(false, v) else Single(v);
    case Repeated => cell := Arr([]);
    case OneOf => cell := Union(0, v);
  }

  /** A decoder that succeeds leaves the end of its stream where it was. */
  ghost predicate StreamKept(stream: IStream, ok: bool, end: nat)
    reads stream
  {
    stream.End() <= end && (ok ==> stream.End() == end)
  }

  // ------------------------------------------------------ per-type decoders

  /** The value of `i` after a cast to a signed C integer of `size` bytes. */
  function SignedCast(i: int, size: nat): int { (i + HalfRange(size)) % (2 * HalfRange(size)) - HalfRange(size) }

  function UnsignedCast(u: nat, size: nat): int { u % (2 * HalfRange(size)) }

  lemma CastsKeep(i: int, size: nat)
    requires IntSize(size)
    ensures SignedCast(i, size) == i <==> -HalfRange(size) <= i < HalfRange(size)
    ensures i >= 0 ==> (UnsignedCast(i, size) == i <==> i < 2 * HalfRange(size))
  {}

  /** pb_dec_varint, pb_dec_uvarint and pb_dec_svarint: read, cast to the member's size, and
      refuse what the cast has changed. */
  method DecVarintInt(stream: IStream, f: Field) returns (ok: bool, i: int)
    requires stream.Valid() && (f.ltype.LVarint? || f.ltype.LUVarint? || f.ltype.LSVarint?)
    modifies stream
    ensures stream.Valid() && StreamKept(stream, ok, old(stream.End()))
    ensures match DecInt(f, old(stream.Rest()))
      case Err => !ok
      case Ok(v, rest) => ok && v == VInt(i) && stream.Rest() == rest
  {
    hide ReadVarint, SignedCast, UnsignedCast;
    var value: nat;
    ok, value := stream.DecodeVarint();
    if !ok {
      return false, 0;
    }
    var wide: int := value;
    if f.ltype.LVarint? {
      wide := if f.dataSize == 8 then S64(value) else S32(value);
    } else if f.ltype.LSVarint? {
      wide := if value % 2 == 1 then S64(M64 - 1 - value / 2) else S64(value / 2);
    }
    if f.dataSize != 8 && f.dataSize != 4 && f.dataSize != 2 && f.dataSize != 1 {
      return false, 0;
    }
    CastsKeep(wide, f.dataSize);
    var clamped := if f.ltype.LUVarint? then UnsignedCast(value, f.dataSize) else SignedCast(wide, f.dataSize);
    if clamped != wide {
      return false, 0;
    }
    return true, wide;
  }

  /** Four bytes shifted into a word and or-ed: their bits do not overlap. */
  function Word(b0: int, b1: int, b2: int, b3: int): int { b0 + 0x100 * b1 + 0x1_0000 * b2 + 0x100_0000 * b3 }

  lemma FourBytes(b: seq<byte>)
    requires |b| == 4
    ensures FromLittleEndian(b) == Word(b[0], b[1], b[2], b[3])
  {
    FromLittleEndianStep(b);
    FromLittleEndianStep(b[1..]);
    FromLittleEndianStep(b[1..][1..]);
    FromLittleEndianStep(b[1..][1..][1..]);
    assert b[1..][1..][1..][1..] == [];
  }

  lemma FromLittleEndianStep(b: seq<byte>)
    requires b != []
    ensures FromLittleEndian(b) == b[0] + 256 * FromLittleEndian(b[1..])
  {}

  lemma EightBytes(b: seq<byte>)
    requires |b| == 8
    ensures FromLittleEndian(b) == FromLittleEndian(b[..4]) + M32 * FromLittleEndian(b[4..])
  {
    hide FromLittleEndian;
    FourBytes(b[..4]);
    FromLittleEndianStep(b);
    FromLittleEndianStep(b[1..]);
    FromLittleEndianStep(b[1..][1..]);
    FromLittleEndianStep(b[1..][1..][1..]);
    assert b[1..][1..][1..][1..] == b[4..];
  }

  /** pb_dec_fixed32 and pb_dec_fixed64. */
  method DecFixed(stream: IStream, f: Field) returns (ok: bool, i: int)
    requires stream.Valid() && (f.ltype.LFixed32? || f.ltype.LFixed64?)
    modifies stream
    ensures stream.Valid() && StreamKept(stream, ok, old(stream.End()))
    ensures match DecInt(f, old(stream.Rest()))
      case Err => !ok
      case Ok(v, rest) => ok && v == VInt(i) && stream.Rest() == rest
  {
    hide FromLittleEndian;
    var b: seq<byte>;
    ok, b := stream.Read(if f.ltype.LFixed32? then 4 else 8);
    if !ok {
      return false, 0;
    }
    if f.ltype.LFixed32? {
      FourBytes(b);
      i := Word(b[0], b[1], b[2], b[3]);
    } else {
      EightBytes(b);
      FourBytes(b[..4]);
      FourBytes(b[4..]);
      i := Word(b[0], b[1], b[2], b[3]) + M32 * Word(b[4], b[5], b[6], b[7]);
    }
  }

  /** pb_dec_bytes, pb_dec_string and pb_dec_fixed_length_bytes. */
  method DecBlobBytes(stream: IStream, f: Field) returns (ok: bool, b: seq<byte>)
    requires stream.Valid() && (f.ltype.LBytes? || f.ltype.LString? || f.ltype.LFixedLengthBytes?)
    modifies stream
    ensures stream.Valid() && StreamKept(stream, ok, old(stream.End()))
    ensures match DecBlob(f, old(stream.Rest()))
      case Err => !ok
      case Ok(v, rest) => ok && v == VBytes(b) && stream.Rest() == rest
  {
    hide ReadVarint32, BlobSizeOk;
    var size: nat;
    ok, size := stream.DecodeVarint32();
    if !ok {
      return false, [];
    }
    ok := BlobFits(f, size);
    if !ok {
      return false, [];
    }
    if f.ltype.LFixedLengthBytes? && size == 0 {
      ZeroBlock(stream.Rest());
      return true, seq(f.dataSize, _ => 0);
    }
    ok, b := stream.Read(size);
  }

  /** Their checks of the announced size. */
  method BlobFits(f: Field, size: nat) returns (ok: bool)
    requires f.ltype.LBytes? || f.ltype.LString? || f.ltype.LFixedLengthBytes?
    ensures ok == BlobSizeOk(f, size)
  {
    if f.ltype.LString? {
      var allocSize := (size + 1) % M32;
      return allocSize >= size && allocSize <= f.dataSize;
    }
    if size > PB_SIZE_MAX {
      return false;
    }
    if f.ltype.LBytes? {
      return size + BYTES_HEADER <= f.dataSize;
    }
    return size == 0 || size == f.dataSize;
  }

  lemma ZeroBlock(s: seq<byte>)
    ensures Take(s, 0) == Ok([], s)
  {}

  /** Where a value is decoded into: array entries are initialised first, whatever was there. */
  function Base(f: Field, prior: Value): Value { if f.htype.Repeated? then InitialValue(f) else prior }

  /** The PB_DECODERS table: the decoder for the field's type. */
  method DecodeValue(stream: IStream, f: Field, prior: Value) returns (ok: bool, v: Value)
    requires stream.Valid() && FieldOk(f) && ShapedValue(f, Base(f, prior))
    modifies stream
    ensures stream.Valid() && StreamKept(stream, ok, old(stream.End()))
    ensures match DecValue(f, Base(f, prior), old(stream.Rest()))
      case Err => !ok
      case Ok(w, rest) => ok && v == w && stream.Rest() == rest && ShapedValue(f, v)
    decreases f, 1
  {
    hide DecInt, DecBlob, ReadBlock, DecNoInit, Shaped, WellFormed;
    v := prior;
    if f.ltype.LSubmessage? {
      ok, v := DecSubmessage(stream, f, prior);
    } else if f.ltype.LBytes? || f.ltype.LString? || f.ltype.LFixedLengthBytes? {
      var b: seq<byte>;
      ok, b := DecBlobBytes(stream, f);
      v := VBytes(b);
    } else {
      ok, v := DecodeInt(stream, f);
    }
  }

  method DecodeInt(stream: IStream, f: Field) returns (ok: bool, v: Value)
    requires stream.Valid() && Packable(f.ltype)
    modifies stream
    ensures stream.Valid() && StreamKept(stream, ok, old(stream.End()))
    ensures match DecInt(f, old(stream.Rest())) case Err => !ok case Ok(w, rest) => ok && v == w && stream.Rest() == rest
  {
    hide DecInt;
    var i: int;
    if f.ltype.LFixed32? || f.ltype.LFixed64? {
      ok, i := DecFixed(stream, f);
    } else {
      ok, i := DecVarintInt(stream, f);
    }
    v := VInt(i);
  }

  /** pb_dec_submessage. */
  method DecSubmessage(stream: IStream, f: Field, prior: Value) returns (ok: bool, v: Value)
    requires stream.Valid() && FieldOk(f) && f.ltype.LSubmessage? && ShapedValue(f, Base(f, prior))
    modifies stream
    ensures stream.Valid() && StreamKept(stream, ok, old(stream.End()))
    ensures match DecValue(f, Base(f, prior), old(stream.Rest()))
      case Err => !ok
      case Ok(w, rest) => ok && v == w && stream.Rest() == rest && ShapedValue(f, v)
    decreases f, 0
  {
    hide ReadBlock, DecLoop, Shaped, WellFormed, AllRequired;
    var fields := f.ltype.fields;
    v := prior;
    var sub: IStream;
    ok, sub := stream.MakeSubstream();
    if !ok {
      return;
    }
    var status, m;
    if f.htype.Repeated? {
      status, m := Decode(sub, fields);
    } else {
      status, m := DecodeNoInit(sub, fields, prior.m);
    }
    hide DecNoInit, DecValue;
    ok := stream.CloseSubstream(sub);
    return status, VMsg(m);
  }

  /** pb_decode. */
  method Decode(stream: IStream, fields: seq<Field>) returns (ok: bool, m: Msg)
    requires stream.Valid() && WellFormed(fields)
    modifies stream
    ensures stream.Valid() && StreamKept(stream, ok, old(stream.End()))
    ensures match DecMsg(fields, old(stream.Rest()))
      case Err => !ok
      case Ok(r, rest) => ok && m == r && stream.Rest() == rest && Shaped(fields, m)
    decreases fields, 7
  {
    hide DecNoInit, Shaped, WellFormed, Defaults;
    DefaultsShaped(fields);
    var dest := SetToDefaults(fields);
    ok, m := DecodeNoInit(stream, fields, dest);
  }

  // ------------------------------------------------------ fields

  /** decode_static_field on the cell at the iterator. */
  method DecodeStaticField(stream: IStream, wt: WireType, f: Field, cell: Cell) returns (ok: bool, cell': Cell)
    requires stream.Valid() && FieldOk(f) && ShapedCell(f, cell)
    modifies stream
    ensures stream.Valid() && StreamKept(stream, ok, old(stream.End()))
    ensures match DecCell(f, wt, old(stream.Rest()), cell)
      case Err => !ok
      case Ok(c, rest) => ok && cell' == c && stream.Rest() == rest && ShapedCell(f, cell')
    decreases f, 4
  {
    hide DecValue, DecPackedChunk, InitialValue, ShapedValue, WellFormed;
    cell' := cell;
    var v: Value;
    match f.htype {
      case Required =>
        ok, v := DecodeValue(stream, f, cell.v);
        cell' := Single(v);
      case Optional =>
        ok, v := DecodeValue(stream, f, cell.v);
        cell' := if f.sizeOffset != 0 then Opt(true, v) else Single(v);
      case Repeated =>
        InitialShaped(f);
        if wt == WT_STRING && Packable(f.ltype) {
          ok, cell' := DecodePackedArray(stream, f, cell);
        } else if |cell.vs| >= f.arraySize {
          ok := false;
        } else {
          ok, v := DecodeValue(stream, f, VInt(0));
          cell' := Arr(cell.vs + [v]);
        }
      case OneOf =>
        ok, cell' := DecodeMember(stream, f);
    }
  }

  /** The oneof case: select the member, initialise a submessage, decode. */
  method DecodeMember(stream: IStream, f: Field) returns (ok: bool, cell: Cell)
    requires stream.Valid() && FieldOk(f) && f.htype.OneOf?
    modifies stream
    ensures stream.Valid() && StreamKept(stream, ok, old(stream.End()))
    ensures match DecValue(f, InitialValue(f), old(stream.Rest()))
      case Err => !ok
      case Ok(v, rest) => ok && cell == Union(f.tag, v) && stream.Rest() == rest
    decreases f, 3
  {
    hide DecNoInit, DecInt, DecBlob, ReadBlock, Shaped, WellFormed, Defaults;
    InitialShaped(f);
    var v := VInt(0);
    if f.ltype.LSubmessage? {
      var m := SetToDefaults(f.ltype.fields);
      v := VMsg(m);
    }
    PriorIgnored(f, v, stream.Rest());
    hide DecValue;
    ok, v := DecodeValue(stream, f, v);
    cell := Union(f.tag, v);
  }

  /** Only submessages are merged into what was there. */
  lemma PriorIgnored(f: Field, v: Value, s: seq<byte>)
    requires f.ltype.LSubmessage? ==> v == InitialValue(f)
    ensures DecValue(f, v, s) == DecValue(f, InitialValue(f), s)
  {
    hide DecNoInit, DecInt, DecBlob, ReadBlock, Defaults;
  }

  /** The packed case. */
  method DecodePackedArray(stream: IStream, f: Field, cell: Cell) returns (ok: bool, cell': Cell)
    requires stream.Valid() && Packable(f.ltype) && cell.Arr?
    modifies stream
    ensures stream.Valid() && StreamKept(stream, ok, old(stream.End()))
    ensures match DecPackedChunk(f, old(stream.Rest()), cell)
      case Err => !ok
      case Ok(c, rest) => ok && cell' == c && stream.Rest() == rest && c.Arr?
  {
    hide ReadBlock, DecInt, DecPacked;
    cell' := cell;
    var sub: IStream;
    ok, sub := stream.MakeSubstream();
    if !ok {
      return;
    }
    var status, vs := DecodePackedEntries(sub, f, cell.vs);
    if sub.bytesLeft != 0 {
      return false, cell;
    }
    ok := stream.CloseSubstream(sub);
    return status, Arr(vs);
  }

  /** Its loop: entries are taken while there are bytes and room in the array. */
  method DecodePackedEntries(sub: IStream, f: Field, before: seq<Value>) returns (status: bool, vs: seq<Value>)
    requires sub.Valid() && Packable(f.ltype)
    modifies sub
    ensures sub.Valid() && StreamKept(sub, status, old(sub.End()))
    ensures match DecPacked(f, before, old(sub.Rest()))
      case Err => !status || sub.bytesLeft != 0
      case Ok(r, _) => status && vs == r && sub.bytesLeft == 0
  {
    hide DecInt;
    ghost var s0 := sub.Rest();
    vs := before;
    while sub.bytesLeft > 0 && |vs| < f.arraySize
      invariant sub.Valid() && sub.End() == old(sub.End())
      invariant DecPacked(f, before, s0) == DecPacked(f, vs, sub.Rest())
      decreases sub.bytesLeft
    {
      var ok, v := DecodeInt(sub, f);
      if !ok {
        return false, vs;
      }
      vs := vs + [v];
    }
    return true, vs;
  }

  // ------------------------------------------------------ messages

  /** The bitset holds the required indices met so far. */
  ghost predicate Tracks(words: seq<nat>, seen: set<nat>, fields: seq<Field>)
  {
    && WordsOk(words) && SeenSet(words) == seen
    && forall k :: k in seen ==> k < RequiredBefore(fields, |fields|) && k < PB_MAX_REQUIRED_FIELDS
  }

  lemma {:induction false} RequiredGrows(fields: seq<Field>, i: nat, n: nat)
    requires i < n <= |fields|
    ensures RequiredBefore(fields, i) + (if fields[i].htype.Required? then 1 else 0) <= RequiredBefore(fields, n)
    decreases n
  {
    if i < n - 1 { RequiredGrows(fields, i, n - 1); }
  }

  /** `fields_seen` after a field has been found. */
  method NoteRequired(words: array<nat>, iter: FieldIter, ghost seen: set<nat>)
    requires words.Length == 2 && iter.Valid() && iter.start != []
    requires Tracks(words[..], seen, iter.start)
    modifies words
    ensures Tracks(words[..], Mark(iter.start, iter.pos, seen), iter.start)
  {
    hide WordsOk, SeenSet, RequiredBefore;
    RequiredGrows(iter.start, iter.pos, |iter.start|);
    if iter.start[iter.pos].htype.Required? && iter.requiredFieldIndex < PB_MAX_REQUIRED_FIELDS {
      MarkSeen(words, iter.requiredFieldIndex);
    }
  }

  /** The check at the end: count the required fields by running the iterator to the end
      of the table, then compare the bitset. */
  method RequiredFieldsSeen(words: array<nat>, iter: FieldIter, ghost seen: set<nat>) returns (ok: bool)
    requires words.Length == 2 && iter.Valid() && Tracks(words[..], seen, iter.start)
    modifies iter
    ensures ok == AllRequired(iter.start, seen)
  {
    hide WordsOk, SeenSet, FieldSize;
    ghost var ws := words[..];
    var reqFieldCount := iter.requiredFieldIndex;
    var lastRequired := iter.start != [] && iter.start[iter.pos].htype.Required?;
    ghost var k := iter.pos;
    var more := iter.Next();
    while more
      invariant iter.Valid() && (iter.start != [] ==> k < |iter.start|)
      invariant more ==> iter.pos == k + 1 < |iter.start|
      invariant !more ==> k + 1 >= |iter.start|
      invariant reqFieldCount == if iter.start == [] then 0 else RequiredBefore(iter.start, k)
      invariant lastRequired <==> iter.start != [] && iter.start[k].htype.Required?
      decreases |iter.start| - k
    {
      k := k + 1;
      reqFieldCount := iter.requiredFieldIndex;
      lastRequired := iter.start[iter.pos].htype.Required?;
      more := iter.Next();
    }
    if lastRequired {
      reqFieldCount := reqFieldCount + 1;
    }
    assert reqFieldCount == RequiredBefore(iter.start, |iter.start|);
    if reqFieldCount > PB_MAX_REQUIRED_FIELDS {
      reqFieldCount := PB_MAX_REQUIRED_FIELDS;
    }
    assert words[..] == ws && SeenSet(words[..]) == seen;
    ok := CheckSeen(words, reqFieldCount);
    assert words[..] == ws;
  }

  /** One round of the field loop, after the key has been read. */
  method DecodeNextField(stream: IStream, iter: FieldIter, words: array<nat>, wt: WireType, tag: nat, m: Msg, ghost seen: set<nat>)
    returns (ok: bool, m': Msg, ghost seen': set<nat>)
    requires stream.Valid() && iter.Valid() && WellFormed(iter.start) && Shaped(iter.start, m)
    requires words.Length == 2 && Tracks(words[..], seen, iter.start)
    modifies stream, iter, words
    ensures stream.Valid() && iter.Valid() && StreamKept(stream, ok, old(stream.End()))
    ensures stream.bytesLeft <= old(stream.bytesLeft) || !ok
    ensures var o := DecField(iter.start, tag, wt, old(stream.Rest()), m, seen);
      if ok then
        && o == DecLoop(iter.start, stream.Rest(), m', seen')
        && Shaped(iter.start, m') && Tracks(words[..], seen', iter.start)
      else o == Fail
    decreases iter.start, 5
  {
    hide DecCell, DecLoop, Skip, Tracks, Mark, ShapedCell, FieldOk, Shaped, CellOf;
    m', seen' := m, seen;
    var fields := iter.start;
    var found := iter.FindTag(tag);
    if !found {
      ok := stream.SkipField(wt);
      return;
    }
    if fields == [] {
      // The terminator: a required varint of size zero, which pb_dec_varint refuses.
      return false, m, seen;
    }
    var pos := iter.pos;
    FindIs(fields, pos);
    NoteRequired(words, iter, seen);
    var c := CellOf(fields, pos);
    assert FieldOk(fields[pos]);
    assert ShapedCell(fields[pos], m[c]) && |m| == |fields| by { ShapedAt(fields, m, pos); }
    var cell: Cell;
    ok, cell := DecodeStaticField(stream, wt, fields[pos], m[c]);
    if ok {
      ShapedUpdate(fields, m, pos, cell);
      m', seen' := m[c := cell], Mark(fields, pos, seen);
    }
  }

  lemma ShapedAt(fields: seq<Field>, m: Msg, i: nat)
    requires Shaped(fields, m) && i < |fields|
    ensures |m| == |fields| && ShapedCell(fields[i], m[CellOf(fields, i)])
  {
    hide ShapedCell, CellOf;
  }

  /** pb_decode_noinit. */
  method DecodeNoInit(stream: IStream, fields: seq<Field>, dest: Msg) returns (ok: bool, m: Msg)
    requires stream.Valid() && WellFormed(fields) && Shaped(fields, dest)
    modifies stream
    ensures stream.Valid() && StreamKept(stream, ok, old(stream.End()))
    ensures match DecNoInit(fields, old(stream.Rest()), dest)
      case Err => !ok
      case Ok(r, rest) => ok && m == r && stream.Rest() == rest && Shaped(fields, m)
    decreases fields, 6
  {
    hide ReadKey, DecField, Tracks, WordsOk, SeenSet, Shaped, WellFormed, AllRequired, RequiredBefore;
    var fieldsSeen := new nat[2](_ => 0);
    var iter := new FieldIter(fields);
    ghost var s0, seen := stream.Rest(), {};
    m := dest;
    assert fieldsSeen[..] == [0, 0];
    NothingTracked(fields);
    while stream.bytesLeft != 0
      invariant stream.Valid() && stream.End() == old(stream.End())
      invariant iter.Valid() && iter.start == fields && Shaped(fields, m) && Tracks(fieldsSeen[..], seen, fields)
      invariant DecLoop(fields, s0, dest, {}) == DecLoop(fields, stream.Rest(), m, seen)
      decreases stream.bytesLeft
    {
      var got, wt, tag, eof := stream.DecodeTag();
      if !got {
        if eof {
          break;
        }
        return false, m;
      }
      var good;
      good, m, seen := DecodeNextField(stream, iter, fieldsSeen, wt, tag, m, seen);
      if !good {
        return false, m;
      }
    }
    ok := RequiredFieldsSeen(fieldsSeen, iter, seen);
  }

  lemma NothingTracked(fields: seq<Field>)
    ensures Tracks([0, 0], {}, fields)
  {
    hide WordsOk, SeenSet;
    NoneSeen();
  }

  /** pb_decode_delimited: the message comes behind its length. */
  method DecodeDelimited(stream: IStream, fields: seq<Field>) returns (ok: bool, m: Msg)
    requires stream.Valid() && WellFormed(fields)
    modifies stream
    ensures stream.Valid()
    ensures match ReadBlock(old(stream.Rest()))
      case Err => !ok
      case Ok(b, rest) =>
        match DecMsg(fields, b)
        case Err => !ok
        case Ok(r, _) => ok && m == r && stream.Rest() == rest
  {
    hide ReadBlock, DecNoInit, WellFormed, Shaped, Defaults;
    m := [];
    var sub: IStream;
    ok, sub := stream.MakeSubstream();
    if !ok {
      return;
    }
    var status;
    status, m := Decode(sub, fields);
    ok := stream.CloseSubstream(sub);
    return status, m;
  }
}
