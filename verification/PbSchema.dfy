/** Message descriptors and message values of nanopb (pb.h), for statically allocated
    fields in the 32-bit field configuration.

    A message type is a sequence of field descriptors. A message value has one cell for
    each descriptor position: the C struct member at the field's data pointer, with the
    has_ flag, the _count or the which_ selector that goes with it. Fields of one union
    share the cell of the first of them. */
module PbSchema {
  import opened Bits
  import opened PbWire

  const PB_SIZE_MAX: nat := 0xFFFF_FFFF
  const PB_MAX_REQUIRED_FIELDS: nat := 64
  /** offsetof(pb_bytes_array_t, bytes): the size member in front of the bytes. */
  const BYTES_HEADER: nat := 4

  datatype LType = LVarint | LUVarint | LSVarint | LFixed32 | LFixed64
                 | LBytes | LString | LSubmessage(fields: seq<Field>) | LFixedLengthBytes

  datatype HType = Required | Optional | Repeated | OneOf

  /** pb_field_t. `initial` is the value at `ptr`, for fields that are not submessages. */
  datatype Field = Field(tag: nat, htype: HType, ltype: LType, dataOffset: nat, sizeOffset: int,
                         dataSize: nat, arraySize: nat, initial: Value)

  datatype Value = VInt(i: int) | VBytes(b: seq<byte>) | VMsg(m: Msg)

  datatype Cell =
    | Single(v: Value)                 // required, or proto3 singular
    | Opt(has: bool, v: Value)         // optional with a has_ flag
    | Arr(vs: seq<Value>)              // repeated: the first _count entries
    | Union(which: nat, u: Value)      // oneof: selector and content
    | Shared                           // lives in an earlier cell

  type Msg = seq<Cell>

  /** Optional fields with a has_ flag, as opposed to proto3 singular fields. */
  predicate HasFlag(f: Field) { f.htype.Optional? && f.sizeOffset != 0 }

  predicate Packable(l: LType) { l.LVarint? || l.LUVarint? || l.LSVarint? || l.LFixed32? || l.LFixed64? }

  function WireTypeOf(l: LType): WireType
  {
    match l
    case LVarint => WT_VARINT
    case LUVarint => WT_VARINT
    case LSVarint => WT_VARINT
    case LFixed32 => WT_32BIT
    case LFixed64 => WT_64BIT
    case _ => WT_STRING
  }

  /** Later members of a union have data_offset PB_SIZE_MAX and do not advance the pointers. */
  predicate SharesCell(fields: seq<Field>, i: nat)
    requires i < |fields|
  {
    i > 0 && fields[i].htype.OneOf? && fields[i - 1].htype.OneOf? && fields[i].dataOffset == PB_SIZE_MAX
  }

  function CellOf(fields: seq<Field>, i: nat): (c: nat)
    requires i < |fields|
    ensures c <= i
  {
    if SharesCell(fields, i) then CellOf(fields, i - 1) else i
  }

  lemma {:induction false} CellOfProperties(fields: seq<Field>, i: nat)
    requires i < |fields|
    ensures var c := CellOf(fields, i);
      CellOf(fields, c) == c && !SharesCell(fields, c) && (c != i ==> fields[c].htype.OneOf?)
    ensures !fields[i].htype.OneOf? ==> CellOf(fields, i) == i
  {
    if SharesCell(fields, i) { CellOfProperties(fields, i - 1); }
  }

  /** Two fields share their cell just if all fields behind the first, up to the second, go on with
      the union of the one before them. */
  lemma {:induction false} SameCellExactly(fields: seq<Field>, i: nat, j: nat)
    requires i <= j < |fields|
    ensures CellOf(fields, i) == CellOf(fields, j) <==> forall k :: i < k <= j ==> SharesCell(fields, k)
    decreases j
  {
    if i < j && SharesCell(fields, j) { SameCellExactly(fields, i, j - 1); }
  }

  /** The position of the field with this tag. */
  function Find(fields: seq<Field>, tag: nat): (i: int)
    ensures -1 <= i < |fields|
    ensures i >= 0 ==> fields[i].tag == tag
    ensures i == -1 ==> forall j :: 0 <= j < |fields| ==> fields[j].tag != tag
  {
    FindFrom(fields, tag, 0)
  }

  function FindFrom(fields: seq<Field>, tag: nat, start: nat): (i: int)
    requires start <= |fields|
    ensures -1 <= i < |fields|
    ensures i >= 0 ==> start <= i && fields[i].tag == tag
    ensures i == -1 ==> forall j :: start <= j < |fields| ==> fields[j].tag != tag
    decreases |fields| - start
  {
    if start == |fields| then -1
    else if fields[start].tag == tag then start
    else FindFrom(fields, tag, start + 1)
  }

  /** The number of required fields before position `i` (required_field_index). */
  function RequiredBefore(fields: seq<Field>, i: nat): (n: nat)
    requires i <= |fields|
    ensures n <= i
  {
    if i == 0 then 0 else RequiredBefore(fields, i - 1) + (if fields[i - 1].htype.Required? then 1 else 0)
  }

  // ------------------------------------------------------ initial messages

  function InitialValue(f: Field): Value
  {
    if f.ltype.LSubmessage? then VMsg(Defaults(f.ltype.fields)) else f.initial
  }

  /** pb_field_set_to_default on the cell at position `i`. */
  function InitialCell(fields: seq<Field>, i: nat): Cell
    requires i < |fields|
  {
    var f := fields[i];
    if SharesCell(fields, i) then Shared
    else
      match f.htype
      case Required => Single(InitialValue(f))
      case Optional => if HasFlag(f) then Opt(false, InitialValue(f)) else Single(InitialValue(f))
      case Repeated => Arr([])
      case OneOf => Union(0, VInt(0))
  }

  /** pb_message_set_to_defaults. */
  function Defaults(fields: seq<Field>): (m: Msg)
    ensures |m| == |fields|
  {
    seq(|fields|, i requires 0 <= i < |fields| => InitialCell(fields, i))
  }

  // ------------------------------------------------------------- int fields

  function HalfRange(size: nat): int
  {
    if size == 1 then 0x80 else if size == 2 then 0x8000 else if size == 4 then M31 else M63
  }

  predicate IntSize(size: nat) { size == 1 || size == 2 || size == 4 || size == 8 }

  /** What a C variable of the field's type and size can hold. */
  predicate IntFits(f: Field, i: int)
  {
    match f.ltype
    case LVarint => IntSize(f.dataSize) && -HalfRange(f.dataSize) <= i < HalfRange(f.dataSize)
    case LSVarint => IntSize(f.dataSize) && -HalfRange(f.dataSize) <= i < HalfRange(f.dataSize)
    case LUVarint => IntSize(f.dataSize) && 0 <= i < 2 * HalfRange(f.dataSize)
    case LFixed32 => 0 <= i < M32
    case LFixed64 => 0 <= i < M64
    case _ => false
  }

  /** The C string in a character buffer of `limit` bytes. */
  function CString(b: seq<byte>, limit: nat): (s: seq<byte>)
    ensures |s| <= limit && s <= b
  {
    if b == [] || limit == 0 || b[0] == 0 then [] else [b[0]] + CString(b[1..], limit - 1)
  }

  lemma {:induction false} CStringWhole(b: seq<byte>, limit: nat)
    requires |b| <= limit && 0 !in b
    ensures CString(b, limit) == b
  {
    if b != [] { CStringWhole(b[1..], limit - 1); }
  }
}
