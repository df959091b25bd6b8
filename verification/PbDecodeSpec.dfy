/** What pb_decode.c makes of a byte sequence, as a function. */
module PbDecodeSpec {
  import opened Bits
  import opened PbWire
  import opened PbSchema

  // ------------------------------------------------------ scalar values

  /** pb_dec_varint: casts to the field's size, refusing what does not survive the cast. */
  function IntOfVarint(f: Field, u: nat): Parse<int>
  {
    if f.dataSize == 8 then Ok(S64(u), [])
    else if IntSize(f.dataSize) && -HalfRange(f.dataSize) <= S32(u) < HalfRange(f.dataSize) then Ok(S32(u), [])
    else Err
  }

  function IntOfPattern(f: Field, u: nat): Parse<int>
  {
    match f.ltype
    case LVarint => IntOfVarint(f, u)
    case LUVarint => if IntFits(f, u) then Ok(u, []) else Err
    case _ => if IntFits(f, UnZigZag(u)) then Ok(UnZigZag(u), []) else Err
  }

  function DecInt(f: Field, s: seq<byte>): (p: Parse<Value>)
    ensures p.Ok? ==> |p.rest| < |s|
  {
    if f.ltype.LFixed32? || f.ltype.LFixed64? then
      match Take(s, if f.ltype.LFixed32? then 4 else 8)
      case Err => Err
      case Ok(b, rest) => Ok(VInt(FromLittleEndian(b)), rest)
    else
      match ReadVarint(s)
      case Err => Err
      case Ok(u, rest) =>
        match IntOfPattern(f, u)
        case Err => Err
        case Ok(i, _) => Ok(VInt(i), rest)
  }

  // ------------------------------------------------------ length-delimited values

  /** A length and the bytes it announces (pb_make_string_substream, pb_dec_bytes, ...). */
  function ReadBlock(s: seq<byte>): (p: Parse<seq<byte>>)
    ensures p.Ok? ==> |p.rest| + |p.val| < |s|
  {
    match ReadVarint32(s)
    case Err => Err
    case Ok(size, rest) => Take(rest, size)
  }

  /** Whether a block of `size` bytes is accepted by a bytes, string or fixed-length field. */
  predicate BlobSizeOk(f: Field, size: nat)
  {
    match f.ltype
    case LBytes => size <= PB_SIZE_MAX && size + BYTES_HEADER <= f.dataSize
    case LString => (size + 1) % M32 >= size && (size + 1) % M32 <= f.dataSize
    case _ => size <= PB_SIZE_MAX && (size == 0 || size == f.dataSize)
  }

  function DecBlob(f: Field, s: seq<byte>): (p: Parse<Value>)
    ensures p.Ok? ==> |p.rest| < |s|
  {
    match ReadBlock(s)
    case Err => Err
    case Ok(b, rest) =>
      if !BlobSizeOk(f, |b|) then Err
      else if f.ltype.LFixedLengthBytes? && b == [] then Ok(VBytes(seq(f.dataSize, _ => 0)), rest)
      else Ok(VBytes(b), rest)
  }

  // ------------------------------------------------------ skipping

  function SkipVarint(s: seq<byte>): (p: Parse<()>)
    ensures p.Ok? ==> |p.rest| < |s|
  {
    if s == [] then Err else if s[0] < 128 then Ok((), s[1..]) else SkipVarint(s[1..])
  }

  function SkipBlock(p: Parse<seq<byte>>): Parse<()>
  {
    if p.Ok? then Ok((), p.rest) else Err
  }

  /** pb_skip_field. */
  function Skip(wt: WireType, s: seq<byte>): (p: Parse<()>)
    ensures p.Ok? ==> |p.rest| <= |s|
  {
    if wt == WT_VARINT then SkipVarint(s)
    else if wt == WT_64BIT then SkipBlock(Take(s, 8))
    else if wt == WT_STRING then SkipBlock(ReadBlock(s))
    else if wt == WT_32BIT then SkipBlock(Take(s, 4))
    else Err
  }

  // ------------------------------------------------------ required fields

  /** The bookkeeping of fields_seen: which required indices below 64 have been met. */
  function Mark(fields: seq<Field>, i: nat, seen: set<nat>): set<nat>
    requires i < |fields|
  {
    var k := RequiredBefore(fields, i);
    if fields[i].htype.Required? && k < PB_MAX_REQUIRED_FIELDS then seen + {k} else seen
  }

  predicate AllRequired(fields: seq<Field>, seen: set<nat>)
  {
    forall k: nat :: k < RequiredBefore(fields, |fields|) && k < PB_MAX_REQUIRED_FIELDS ==> k in seen
  }

  // ------------------------------------------------------ messages

  /** How the field loop ends: in failure, at the end of the bytes, or at a zero key. */
  datatype Outcome = Fail | Done(m: Msg, seen: set<nat>, rest: seq<byte>, zeroKey: bool)

  /** The per-type decoders; `old` is what the destination held before. */
  function DecValue(f: Field, prior: Value, s: seq<byte>): (p: Parse<Value>)
    ensures p.Ok? ==> |p.rest| < |s|
    decreases f, |s|, 0
  {
    match f.ltype
    case LSubmessage(fields) =>
      (match ReadBlock(s)
       case Err => Err
       case Ok(b, rest) =>
         if !prior.VMsg? then Err
         else
           match DecNoInit(fields, b, prior.m)
           case Err => Err
           case Ok(m, _) => Ok(VMsg(m), rest))
    case LBytes => DecBlob(f, s)
    case LString => DecBlob(f, s)
    case LFixedLengthBytes => DecBlob(f, s)
    case _ => DecInt(f, s)
  }

  /** The entries of a packed array, appended to `vs`. */
  function DecPacked(f: Field, vs: seq<Value>, s: seq<byte>): (p: Parse<seq<Value>>)
    decreases |s|
  {
    if s == [] then Ok(vs, [])
    else if |vs| >= f.arraySize then Err
    else
      match DecInt(f, s)
      case Err => Err
      case Ok(v, rest) => DecPacked(f, vs + [v], rest)
  }

  /** What a decoded value does to the field's cell. */
  function Absorb(f: Field, cell: Cell, v: Value): Cell
  {
    match f.htype
    case Required => Single(v)
    case Optional => if HasFlag(f) then Opt(true, v) else Single(v)
    case Repeated => if cell.Arr? then Arr(cell.vs + [v]) else cell
    case OneOf => Union(f.tag, v)
  }

  /** The memory a value is decoded into. Array entries and oneof submessages are
      initialised first; required and optional submessages are merged into. */
  function Destination(f: Field, cell: Cell): Parse<Value>
  {
    match f.htype
    case Required => if cell.Single? then Ok(cell.v, []) else Err
    case Optional =>
      if (HasFlag(f) && cell.Opt?) || (!HasFlag(f) && cell.Single?) then Ok(cell.v, []) else Err
    case Repeated => if cell.Arr? && |cell.vs| < f.arraySize then Ok(InitialValue(f), []) else Err
    case OneOf => if cell.Union? then Ok(InitialValue(f), []) else Err
  }

  predicate IsPackedChunk(f: Field, wt: WireType)
  {
    f.htype.Repeated? && wt == WT_STRING && Packable(f.ltype)
  }

  /** decode_static_field on one cell. */
  function DecCell(f: Field, wt: WireType, s: seq<byte>, cell: Cell): (p: Parse<Cell>)
    ensures p.Ok? ==> |p.rest| < |s|
    decreases f, |s|, 1
  {
    if IsPackedChunk(f, wt) then DecPackedChunk(f, s, cell)
    else
      match Destination(f, cell)
      case Err => Err
      case Ok(prior, _) =>
        match DecValue(f, prior, s)
        case Err => Err
        case Ok(v, rest) => Ok(Absorb(f, cell, v), rest)
  }

  function DecPackedChunk(f: Field, s: seq<byte>, cell: Cell): (p: Parse<Cell>)
    ensures p.Ok? ==> |p.rest| < |s|
  {
    match ReadBlock(s)
    case Err => Err
    case Ok(b, rest) =>
      if !cell.Arr? then Err
      else
        match DecPacked(f, cell.vs, b)
        case Err => Err
        case Ok(vs, _) => Ok(Arr(vs), rest)
  }

  /** The field loop of pb_decode_noinit. */
  function DecLoop(fields: seq<Field>, s: seq<byte>, m: Msg, seen: set<nat>): (o: Outcome)
    decreases fields, |s|, 2
  {
    if s == [] then Done(m, seen, [], false)
    else
      match ReadKey(s)
      case KeyErr => Fail
      case KeyEnd(rest) => Done(m, seen, rest, true)
      case KeyOk(tag, wt, rest) => DecField(fields, tag, wt, rest, m, seen)
  }

  /** One field after its key, and the rest of the loop. In a message type without fields
      the search for tag zero stops at the terminator, which no decoder accepts. */
  function DecField(fields: seq<Field>, tag: nat, wt: WireType, s: seq<byte>, m: Msg, seen: set<nat>): (o: Outcome)
    decreases fields, |s|, 3
  {
    var i := Find(fields, tag);
    if fields == [] && tag == 0 then Fail
    else if i < 0 then
      match Skip(wt, s) case Err => Fail case Ok(_, rest) => DecLoop(fields, rest, m, seen)
    else if |m| != |fields| then Fail
    else
      var c := CellOf(fields, i);
      match DecCell(fields[i], wt, s, m[c])
      case Err => Fail
      case Ok(cell, rest) => DecLoop(fields, rest, m[c := cell], Mark(fields, i, seen))
  }

  function DecNoInit(fields: seq<Field>, s: seq<byte>, m: Msg): (p: Parse<Msg>)
    decreases fields, |s|, 4
  {
    match DecLoop(fields, s, m, {})
    case Fail => Err
    case Done(m', seen, rest, _) => if AllRequired(fields, seen) then Ok(m', rest) else Err
  }

  /** pb_decode. */
  function DecMsg(fields: seq<Field>, s: seq<byte>): Parse<Msg>
  {
    DecNoInit(fields, s, Defaults(fields))
  }
}
