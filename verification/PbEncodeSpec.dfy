/** What pb_encode.c emits for a message, as a function. */
module PbEncodeSpec {
  import opened Options
  import opened Bits
  import opened PbWire
  import opened PbSchema

  /** `None` stands for every encoder failure other than a full stream. */

  function Cat(a: Option<seq<byte>>, b: Option<seq<byte>>): Option<seq<byte>>
  {
    if a.Some? && b.Some? then Some(a.value + b.value) else None
  }

  function LenPrefixed(p: Option<seq<byte>>): Option<seq<byte>>
  {
    if p.Some? then Some(Varint(|p.value|) + p.value) else None
  }

  /** pb_check_proto3_default_value. */
  predicate IsZero(f: Field, cell: Cell)
    decreases f, 1
  {
    match f.htype
    case Required => false
    case Repeated => cell.Arr? && |cell.vs| == 0
    case OneOf => cell.Union? && cell.which == 0
    case Optional =>
      if HasFlag(f) then cell.Opt? && !cell.has
      else cell.Single? && IsZeroValue(f, cell.v)
  }

  predicate IsZeroValue(f: Field, v: Value)
    decreases f, 0
  {
    match f.ltype
    case LBytes => v.VBytes? && |v.b| == 0
    case LString => v.VBytes? && (v.b == [] || v.b[0] == 0)
    case LFixedLengthBytes => f.dataSize == 0
    case LSubmessage(fields) => v.VMsg? && |v.m| == |fields| && AllZero(fields, v.m, 0)
    case _ => v == VInt(0)
  }

  predicate AllZero(fields: seq<Field>, m: Msg, i: nat)
    requires |m| == |fields| && i <= |fields|
    decreases fields, |fields| - i
  {
    i == |fields| || (IsZero(fields[i], m[CellOf(fields, i)]) && AllZero(fields, m, i + 1))
  }

  /** The values a field contributes, in order. */
  function Items(f: Field, cell: Cell): Option<seq<Value>>
  {
    match f.htype
    case Required => if cell.Single? then Some([cell.v]) else None
    case Repeated => if cell.Arr? && |cell.vs| <= f.arraySize then Some(cell.vs) else None
    case OneOf => if !cell.Union? then None else if cell.which == f.tag then Some([cell.u]) else Some([])
    case Optional =>
      if HasFlag(f) then
        if !cell.Opt? then None else if cell.has then Some([cell.v]) else Some([])
      else
        if !cell.Single? then None else if IsZero(f, cell) then Some([]) else Some([cell.v])
  }

  function IntBytes(f: Field, i: int): seq<byte>
    requires IntFits(f, i)
  {
    if f.ltype.LFixed32? then LittleEndian(i, 4)
    else if f.ltype.LFixed64? then LittleEndian(i, 8)
    else if f.ltype.LSVarint? then ZigZagInverts(i); Varint(ZigZag(i))
    else Varint(U64(i))
  }

  /** The value without its key: the per-type encoders. */
  function EncValue(f: Field, v: Value): Option<seq<byte>>
    decreases f, 0
  {
    match f.ltype
    case LBytes =>
      if v.VBytes? && |v.b| + BYTES_HEADER <= f.dataSize then LenPrefixed(Some(v.b)) else None
    case LString =>
      if v.VBytes? then LenPrefixed(Some(CString(v.b, f.dataSize))) else None
    case LFixedLengthBytes =>
      if v.VBytes? && |v.b| == f.dataSize then LenPrefixed(Some(v.b)) else None
    case LSubmessage(fields) =>
      if v.VMsg? then LenPrefixed(EncMsg(fields, v.m)) else None
    case _ =>
      if v.VInt? && IntFits(f, v.i) then Some(IntBytes(f, v.i)) else None
  }

  /** Values one after another, each under its own key. */
  function EncItems(f: Field, vs: seq<Value>): Option<seq<byte>>
    decreases f, 1, |vs|
  {
    if vs == [] then Some([])
    else Cat(Cat(Some(Key(f.tag, WireTypeOf(f.ltype))), EncValue(f, vs[0])), EncItems(f, vs[1..]))
  }

  /** Values one after another without keys. */
  function EncPayload(f: Field, vs: seq<Value>): Option<seq<byte>>
    decreases f, 1, |vs|
  {
    if vs == [] then Some([]) else Cat(EncValue(f, vs[0]), EncPayload(f, vs[1..]))
  }

  function EncPacked(f: Field, vs: seq<Value>): Option<seq<byte>>
    decreases f, 2
  {
    if vs == [] then Some([])
    else Cat(Some(Key(f.tag, WT_STRING)), LenPrefixed(EncPayload(f, vs)))
  }

  /** encode_basic_field. */
  function EncField(f: Field, cell: Cell): Option<seq<byte>>
    decreases f, 3
  {
    match Items(f, cell)
    case None => None
    case Some(vs) => if f.htype.Repeated? && Packable(f.ltype) then EncPacked(f, vs) else EncItems(f, vs)
  }

  /** pb_encode: the fields from position `i` on. */
  function EncFrom(fields: seq<Field>, m: Msg, i: nat): Option<seq<byte>>
    requires |m| == |fields| && i <= |fields|
    decreases fields, |fields| - i
  {
    if i == |fields| then Some([])
    else Cat(EncField(fields[i], m[CellOf(fields, i)]), EncFrom(fields, m, i + 1))
  }

  function EncMsg(fields: seq<Field>, m: Msg): Option<seq<byte>>
    decreases fields, |fields| + 1
  {
    if |m| == |fields| then EncFrom(fields, m, 0) else None
  }
}
