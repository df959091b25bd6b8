/** What a decoder has to make of records, said without the decoder (Protocol Buffers Encoding
    specification, sections "Message Structure" and "Last One Wins"): which number a payload denotes
    in a variable of the field's size, what a member holds after a record, and which records a
    message must have. pb_decode does exactly that. */
module PbMeaning {
  import opened Options
  import opened Bits
  import opened PbWire
  import opened PbSchema
  import opened PbEncodeSpec
  import opened PbDecodeSpec
  import opened PbRoundTrip
  import opened PbFormat

  // ------------------------------------------------------ records as bytes

  function WireOf(p: Payload): nat
  {
    match p case Number(_) => 0 case Eight(_) => 1 case Block(_) => 2 case Four(_) => 5
  }

  function Bytes(p: Payload): seq<byte>
  {
    match p
    case Number(u) => Varint(u)
    case Eight(b) => b
    case Block(b) => Varint(|b|) + b
    case Four(b) => b
  }

  function RecordBytes(r: Record): seq<byte> { Varint(8 * r.tag + WireOf(r.payload)) + Bytes(r.payload) }

  /** A payload that has a place in nanopb: 64-bit numbers, and lengths that fit 32 bits. */
  predicate PayloadOk(p: Payload)
  {
    match p
    case Number(u) => u < 0x1_0000_0000_0000_0000
    case Eight(b) => |b| == 8
    case Block(b) => |b| < 0x1_0000_0000
    case Four(b) => |b| == 4
  }

  predicate RecordOk(r: Record) { 0 < r.tag < 0x2000_0000 && PayloadOk(r.payload) }

  lemma PayloadRead(p: Payload, t: seq<byte>)
    requires PayloadOk(p)
    ensures ReadPayload(WireOf(p), Bytes(p) + t) == Ok(p, t)
  {
    hide Varint, ReadNumber, ReadBytes, ReadDelimited;
    if p.Number? { NumberRead(p.u, t); }
    if p.Block? { BlockRead(p.b, t); }
    if p.Eight? || p.Four? { BytesRead(p.b, t); }
  }

  /** These are the bytes that the reader of records reads as this record. */
  lemma BytesAreRecord(r: Record, t: seq<byte>)
    requires RecordOk(r)
    ensures ReadRecord(RecordBytes(r) + t) == Ok(r, t)
  {
    hide Varint, Bytes, ReadPayload, ReadRecord;
    PayloadRead(r.payload, t);
    RecordRead(r.tag, WireOf(r.payload), Bytes(r.payload), r.payload, t);
  }

  // ------------------------------------------------------ numbers

  /** In a variable of the field's type and size the payload denotes `i`. A signed number may have
      been sent with 64 bits or with 32; a value that the variable cannot hold is none. */
  predicate Denotes(f: Field, p: Payload, i: int)
  {
    match f.ltype
    case LVarint =>
      && p.Number? && SizeOk(f.dataSize) && -Half(f.dataSize) <= i < Half(f.dataSize)
      && (i - p.u) % (if f.dataSize == 8 then 0x1_0000_0000_0000_0000 else 0x1_0000_0000) == 0
    case LUVarint => p.Number? && SizeOk(f.dataSize) && i == p.u < 2 * Half(f.dataSize)
    case LSVarint =>
      && p.Number? && SizeOk(f.dataSize) && -Half(f.dataSize) <= i < Half(f.dataSize)
      && p.u == (if i < 0 then -2 * i - 1 else 2 * i)
    case LFixed32 => p.Four? && i == NumberOf(p.b)
    case LFixed64 => p.Eight? && i == NumberOf(p.b)
    case _ => false
  }

  /** The payload has the wire type of the field. */
  predicate Suits(f: Field, p: Payload) { WireOf(p) == WireNumber(f.ltype) }

  lemma {:induction false} SameNumber(b: seq<byte>)
    ensures FromLittleEndian(b) == NumberOf(b)
  {
    if b != [] { SameNumber(b[1..]); }
  }

  /** The decoder takes a number just if the variable can hold it, and then it is the number. */
  lemma IntegerDecoded(f: Field, p: Payload, t: seq<byte>)
    requires IsNumeric(f.ltype) && Suits(f, p) && PayloadOk(p)
    ensures match DecInt(f, Bytes(p) + t)
      case Err => forall i :: !Denotes(f, p, i)
      case Ok(v, rest) => v.VInt? && rest == t && forall i :: Denotes(f, p, i) <==> i == v.i
  {
    hide Varint, ReadVarint, FromLittleEndian, NumberOf;
    if f.ltype.LFixed32? || f.ltype.LFixed64? {
      SameNumber(p.b);
      TakeAll(p.b, t);
    } else {
      VarintInverts(p.u, t);
      hide Denotes, IntOfPattern;
      PatternDenotes(f, p);
    }
  }

  lemma TakeAll(b: seq<byte>, t: seq<byte>)
    ensures Take(b + t, |b|) == Ok(b, t)
  {
    assert (b + t)[..|b|] == b && (b + t)[|b|..] == t;
  }

  lemma PatternDenotes(f: Field, p: Payload)
    requires (f.ltype.LVarint? || f.ltype.LUVarint? || f.ltype.LSVarint?) && p.Number? && p.u < M64
    ensures match IntOfPattern(f, p.u)
      case Err => forall i :: !Denotes(f, p, i)
      case Ok(v, _) => forall i :: Denotes(f, p, i) <==> i == v
  {
    hide UnZigZag, ZigZag;
    if f.ltype.LSVarint? {
      UnZigZagInverts(p.u);
      ZigZagInverts(UnZigZag(p.u));
    } else if f.ltype.LVarint? {
      SignedDenotes(f, p);
    }
  }

  lemma SignedDenotes(f: Field, p: Payload)
    requires f.ltype.LVarint? && p.Number? && p.u < M64
    ensures match IntOfVarint(f, p.u)
      case Err => forall i :: !Denotes(f, p, i)
      case Ok(v, _) => forall i :: Denotes(f, p, i) <==> i == v
  {
    forall i | Denotes(f, p, i) ensures i == if f.dataSize == 8 then S64(p.u) else S32(p.u) {
      if f.dataSize == 8 { SignedIs64(p.u, i); } else { SignedIs32(p.u, i); }
    }
    assert (S64(p.u) - p.u) % M64 == 0;
    assert (S32(p.u) - p.u) % M32 == 0;
  }

  lemma SignedIs64(u: nat, i: int)
    requires u < M64 && -M63 <= i < M63 && (i - u) % M64 == 0
    ensures i == S64(u)
  {}

  lemma SignedIs32(u: nat, i: int)
    requires -M31 <= i < M31 && (i - u) % M32 == 0
    ensures i == S32(u)
  {
    var r := u % M32;
    assert (i - r) % M32 == 0;
  }

  // ------------------------------------------------------ values

  /** The value that a payload gives, where the memory held `start`: text needs room for its
      terminator, bytes for their length; a submessage is decoded into what was there. */
  predicate Gives(f: Field, start: Value, p: Payload, v: Value)
  {
    match f.ltype
    case LBytes => p.Block? && |p.b| + 4 <= f.dataSize && v == VBytes(p.b)
    case LString => p.Block? && |p.b| + 1 <= f.dataSize && v == VBytes(p.b)
    case LFixedLengthBytes =>
      p.Block? && ((|p.b| == f.dataSize && v == VBytes(p.b)) || (p.b == [] && v == VBytes(seq(f.dataSize, _ => 0))))
    case LSubmessage(sub) =>
      p.Block? && start.VMsg? && DecNoInit(sub, p.b, start.m).Ok? && v == VMsg(DecNoInit(sub, p.b, start.m).val)
    case _ => v.VInt? && Denotes(f, p, v.i)
  }

  lemma ValueDecoded(f: Field, start: Value, p: Payload, t: seq<byte>)
    requires Suits(f, p) && PayloadOk(p) && f.dataSize <= 0xFFFF_FFFF
    ensures match DecValue(f, start, Bytes(p) + t)
      case Err => forall v :: !Gives(f, start, p, v)
      case Ok(v, rest) => rest == t && forall w :: Gives(f, start, p, w) <==> w == v
  {
    if IsNumeric(f.ltype) {
      hide DecInt, Denotes, Bytes;
      IntegerDecoded(f, p, t);
    } else {
      hide DecBlob, DecNoInit, ReadBlock, Varint;
      BlockRoundTrip(p.b, t);
      if !f.ltype.LSubmessage? { BlobDecoded(f, start, p, t); }
    }
  }

  lemma BlobDecoded(f: Field, start: Value, p: Payload, t: seq<byte>)
    requires p.Block? && |p.b| < M32 && f.dataSize <= 0xFFFF_FFFF && ReadBlock(Bytes(p) + t) == Ok(p.b, t)
    requires f.ltype.LBytes? || f.ltype.LString? || f.ltype.LFixedLengthBytes?
    ensures match DecBlob(f, Bytes(p) + t)
      case Err => forall v :: !Gives(f, start, p, v)
      case Ok(v, rest) => rest == t && forall w :: Gives(f, start, p, w) <==> w == v
  {
    hide ReadBlock, Bytes;
    if f.ltype.LFixedLengthBytes? && p.b == [] && f.dataSize == 0 { assert seq(0, _ => 0) == p.b; }
  }

  // ------------------------------------------------------ members

  /** The cell is of the field's kind. */
  predicate KindOk(f: Field, cell: Cell)
  {
    match f.htype
    case Required => cell.Single?
    case Optional => if f.sizeOffset != 0 then cell.Opt? else cell.Single?
    case Repeated => cell.Arr?
    case OneOf => cell.Union?
  }

  /** Where a value is put: over what was there, but array entries and union members start anew. */
  function Before(f: Field, cell: Cell): Value
    requires KindOk(f, cell)
  {
    match f.htype
    case Required => cell.v
    case Optional => cell.v
    case _ => if f.ltype.LSubmessage? then VMsg(Defaults(f.ltype.fields)) else f.initial
  }

  predicate HasPlace(f: Field, cell: Cell) { f.htype.Repeated? ==> cell.Arr? && |cell.vs| < f.arraySize }

  /** The cell with the value: the last one wins, an array grows, a union has the new member. */
  function With(f: Field, cell: Cell, v: Value): Cell
    requires KindOk(f, cell)
  {
    match f.htype
    case Required => Single(v)
    case Optional => if f.sizeOffset != 0 then Opt(true, v) else Single(v)
    case Repeated => Arr(cell.vs + [v])
    case OneOf => Union(f.tag, v)
  }

  /** Which of the required fields that are checked have been met. */
  function Met(fields: seq<Field>, i: nat, seen: set<nat>): set<nat>
    requires i < |fields|
  {
    if fields[i].htype.Required? && RequiredBefore(fields, i) < 64 then seen + {RequiredBefore(fields, i)} else seen
  }

  lemma CellDecoded(f: Field, p: Payload, cell: Cell, t: seq<byte>)
    requires KindOk(f, cell) && Suits(f, p) && PayloadOk(p) && f.dataSize <= 0xFFFF_FFFF
    ensures match DecCell(f, WireOf(p), Bytes(p) + t, cell)
      case Err => !HasPlace(f, cell) || forall v :: !Gives(f, Before(f, cell), p, v)
      case Ok(next, rest) =>
        rest == t && HasPlace(f, cell) && exists v :: Gives(f, Before(f, cell), p, v) && next == With(f, cell, v)
  {
    hide DecValue, Gives, Bytes, InitialValue;
    BeforeIs(f);
    ValueDecoded(f, Before(f, cell), p, t);
    var d := DecValue(f, Before(f, cell), Bytes(p) + t);
    if d.Ok? { assert Gives(f, Before(f, cell), p, d.val); }
  }

  lemma BeforeIs(f: Field)
    ensures InitialValue(f) == if f.ltype.LSubmessage? then VMsg(Defaults(f.ltype.fields)) else f.initial
  {}

  /** A record of a known field: the loop goes on behind it, with the member's new value, or fails
      when the payload gives none or the array is full. Whatever the member held, the new value is
      this one. */
  lemma RecordDecoded(fields: seq<Field>, i: nat, p: Payload, v: Value, t: seq<byte>, m: Msg, seen: set<nat>)
    requires WellFormed(fields) && i < |fields| && |m| == |fields|
    requires Suits(fields[i], p) && PayloadOk(p) && KindOk(fields[i], m[CellOf(fields, i)])
    ensures var f, c := fields[i], CellOf(fields, i);
      var o := DecLoop(fields, RecordBytes(Record(f.tag, p)) + t, m, seen);
      && (HasPlace(f, m[c]) && Gives(f, Before(f, m[c]), p, v)
          ==> o == DecLoop(fields, t, m[c := With(f, m[c], v)], Met(fields, i, seen)))
      && (!HasPlace(f, m[c]) || (forall w :: !Gives(f, Before(f, m[c]), p, w)) ==> o == Fail)
  {
    assert FieldOk(fields[i]);
    FindIs(fields, i);
    hide WellFormed, DecLoop, DecCell, Varint, CellOf, Find, Gives, Bytes, RequiredBefore, FieldOk;
    var f, c := fields[i], CellOf(fields, i);
    assert RecordBytes(Record(f.tag, p)) + t == Key(f.tag, WireOf(p)) + (Bytes(p) + t);
    LoopAtKey(fields, f.tag, WireOf(p), Bytes(p) + t, m, seen);
    CellDecoded(f, p, m[c], t);
    OnlyOne(f, Before(f, m[c]), p, v, t);
  }

  /** A payload gives at most one value. */
  lemma OnlyOne(f: Field, start: Value, p: Payload, v: Value, t: seq<byte>)
    requires Suits(f, p) && PayloadOk(p) && f.dataSize <= 0xFFFF_FFFF
    ensures Gives(f, start, p, v) ==> forall w :: Gives(f, start, p, w) ==> w == v
  {
    hide DecValue, Gives, Bytes;
    ValueDecoded(f, start, p, t);
  }

  /** A record of no known field is passed over. */
  lemma RecordSkipped(fields: seq<Field>, r: Record, t: seq<byte>, m: Msg, seen: set<nat>)
    requires RecordOk(r) && forall i :: 0 <= i < |fields| ==> fields[i].tag != r.tag
    ensures DecLoop(fields, RecordBytes(r) + t, m, seen) == DecLoop(fields, t, m, seen)
  {
    hide DecLoop, Varint, Skip, Bytes;
    assert RecordBytes(r) + t == Key(r.tag, WireOf(r.payload)) + (Bytes(r.payload) + t);
    LoopAtKey(fields, r.tag, WireOf(r.payload), Bytes(r.payload) + t, m, seen);
    PayloadSkipped(r.payload, t);
  }

  lemma PayloadSkipped(p: Payload, t: seq<byte>)
    requires PayloadOk(p)
    ensures Skip(WireOf(p), Bytes(p) + t) == Ok((), t)
  {
    hide Varint, SkipVarint, ReadBlock;
    match p
    case Number(u) => SkipVarintRoundTrip(u, t);
    case Eight(b) => TakeAll(b, t);
    case Block(b) => BlockRoundTrip(b, t);
    case Four(b) => TakeAll(b, t);
  }

  /** What ends the loop: the end of the bytes, or a zero byte for a key. It fails on a key that is cut
      off, and on the tag zero if there is no field. */
  lemma LoopEnds(fields: seq<Field>, w: byte, t: seq<byte>, m: Msg, seen: set<nat>)
    ensures DecLoop(fields, [], m, seen) == Done(m, seen, [], false)
    ensures DecLoop(fields, [0] + t, m, seen) == Done(m, seen, t, true)
    ensures t != [] && (forall j :: 0 <= j < |t| ==> t[j] >= 128) ==> DecLoop(fields, t, m, seen) == Fail
    ensures 0 < w < 8 && fields == [] ==> DecLoop(fields, [w] + t, m, seen) == Fail
  {
    hide ReadKey, DecCell, Skip;
    SmallKey(fields, 0, t, m, seen);
    if 0 < w < 8 { SmallKey(fields, w, t, m, seen); }
    if t != [] && forall j :: 0 <= j < |t| ==> t[j] >= 128 { CutOffKey(fields, t, m, seen); }
  }

  /** It also fails on a record of an unknown field whose wire type is none of the four. */
  lemma NoSuchType(fields: seq<Field>, tag: nat, w: WireType, t: seq<byte>, m: Msg, seen: set<nat>)
    requires 0 < tag < 0x2000_0000 && w != 0 && w != 1 && w != 2 && w != 5
    requires forall i :: 0 <= i < |fields| ==> fields[i].tag != tag
    ensures DecLoop(fields, Varint(8 * tag + w) + t, m, seen) == Fail
  {
    hide DecLoop, Varint;
    LoopAtKey(fields, tag, w, t, m, seen);
  }

  lemma CutOffKey(fields: seq<Field>, t: seq<byte>, m: Msg, seen: set<nat>)
    requires t != [] && forall j :: 0 <= j < |t| ==> t[j] >= 128
    ensures DecLoop(fields, t, m, seen) == Fail
  {
    hide Varint32Tail, DecField;
    CutOff(t[1..], 7, t[0] - 128);
  }

  lemma SmallKey(fields: seq<Field>, w: byte, t: seq<byte>, m: Msg, seen: set<nat>)
    requires w < 8
    ensures DecLoop(fields, [w] + t, m, seen)
      == if w == 0 then Done(m, seen, t, true) else DecField(fields, 0, w, t, m, seen)
  {
    hide DecField;
    assert ([w] + t)[1..] == t;
  }

  lemma {:induction false} CutOff(t: seq<byte>, bitpos: nat, result: nat)
    requires forall j :: 0 <= j < |t| ==> t[j] >= 128
    ensures Varint32Tail(t, bitpos, result) == Err
    decreases |t|
  {
    hide Or32, SignExtension, NextBitpos;
    if t != [] { CutOff(t[1..], NextBitpos(bitpos), Or32(result, t[0], bitpos)); }
  }

  /** A member before anything is decoded: no flag, no entry, no member of the union; otherwise the
      default of its descriptor, and for a submessage the defaults of its members. */
  lemma DefaultsAre(fields: seq<Field>, i: nat)
    requires i < |fields|
    ensures var f, cell := fields[i], Defaults(fields)[CellOf(fields, i)];
      var v := if f.ltype.LSubmessage? then VMsg(Defaults(f.ltype.fields)) else f.initial;
      match f.htype
      case Required => cell == Single(v)
      case Optional => cell == (if f.sizeOffset != 0 then Opt(false, v) else Single(v))
      case Repeated => cell == Arr([])
      case OneOf => cell.Union? && cell.which == 0
  {
    hide InitialValue;
    BeforeIs(fields[i]);
    DefaultsAtCell(fields, i);
  }

  // ------------------------------------------------------ last one wins

  /** What the encoder writes for a value is a payload that gives the value back. */
  lemma EncodedGives(f: Field, start: Value, v: Value, e: seq<byte>) returns (p: Payload)
    requires !f.ltype.LSubmessage? && f.dataSize <= 0xFFFF_FFFF && EncValue(f, v) == Some(e)
    requires f.ltype.LString? ==> v.VBytes? && |CString(v.b, f.dataSize)| < f.dataSize
    ensures e == Bytes(p) && Suits(f, p) && PayloadOk(p)
    ensures Gives(f, start, p, if f.ltype.LString? then VBytes(CString(v.b, f.dataSize)) else v)
  {
    hide Varint, LittleEndian, ZigZag, NumberOf, CString;
    if IsNumeric(f.ltype) {
      IntFitsDenotes(f, v.i);
      p := if f.ltype.LFixed32? then Four(IntBytes(f, v.i))
           else if f.ltype.LFixed64? then Eight(IntBytes(f, v.i))
           else if f.ltype.LSVarint? then Number(ZigZag(v.i))
           else Number(U64(v.i));
    } else {
      p := Block(if f.ltype.LString? then CString(v.b, f.dataSize) else v.b);
    }
  }

  lemma IntFitsDenotes(f: Field, i: int)
    requires IsNumeric(f.ltype) && IntFits(f, i)
    ensures f.ltype.LVarint? || f.ltype.LUVarint? ==> 0 <= U64(i) < M64 && Denotes(f, Number(U64(i)), i)
    ensures f.ltype.LSVarint? ==> 0 <= ZigZag(i) < M64 && Denotes(f, Number(ZigZag(i)), i)
    ensures f.ltype.LFixed32? ==> |LittleEndian(i, 4)| == 4 && Denotes(f, Four(LittleEndian(i, 4)), i)
    ensures f.ltype.LFixed64? ==> |LittleEndian(i, 8)| == 8 && Denotes(f, Eight(LittleEndian(i, 8)), i)
  {
    hide LittleEndian, NumberOf, ZigZag;
    Pow256Values();
    if f.ltype.LFixed32? { LittleEndianNumber(i, 4); }
    if f.ltype.LFixed64? { LittleEndianNumber(i, 8); }
    if f.ltype.LSVarint? { ZigZagInverts(i); }
    if f.ltype.LVarint? { assert (i - U64(i)) % M64 == 0 && (i - U64(i)) % M32 == 0; }
  }

  /** Last one wins: when a member's value is decoded, the member is that value, whatever it was
      before; an array has it at its end, if there is room, and a union has changed to it. */
  lemma LastOneWins(fields: seq<Field>, i: nat, v: Value, e: seq<byte>, t: seq<byte>, m: Msg, seen: set<nat>)
    requires WellFormed(fields) && i < |fields| && |m| == |fields| && KindOk(fields[i], m[CellOf(fields, i)])
    requires !fields[i].ltype.LSubmessage? && EncValue(fields[i], v) == Some(e)
    requires fields[i].ltype.LString? ==> v.VBytes? && |v.b| < fields[i].dataSize && 0 !in v.b
    ensures var f, c := fields[i], CellOf(fields, i);
      var o := DecLoop(fields, Varint(8 * f.tag + WireNumber(f.ltype)) + e + t, m, seen);
      match f.htype
      case Required => o == DecLoop(fields, t, m[c := Single(v)], Met(fields, i, seen))
      case Optional => o == DecLoop(fields, t, m[c := if f.sizeOffset != 0 then Opt(true, v) else Single(v)], seen)
      case OneOf => o == DecLoop(fields, t, m[c := Union(f.tag, v)], seen)
      case Repeated => o == if |m[c].vs| < f.arraySize then DecLoop(fields, t, m[c := Arr(m[c].vs + [v])], seen) else Fail
  {
    var f, c := fields[i], CellOf(fields, i);
    assert FieldOk(f);
    hide WellFormed, DecLoop, Varint, CellOf, Gives, Bytes, RequiredBefore, FieldOk, EncValue;
    if f.ltype.LString? { CStringWhole(v.b, f.dataSize); }
    var p := EncodedGives(f, Before(f, m[c]), v, e);
    RecordDecoded(fields, i, p, v, t, m, seen);
  }

  // ------------------------------------------------------ all records of a message

  predicate ShapeOk(fields: seq<Field>, m: Msg)
  {
    |m| == |fields| && forall i :: 0 <= i < |fields| ==> KindOk(fields[i], m[CellOf(fields, i)])
  }

  /** The message after a record; None when it is refused. */
  ghost function Apply(fields: seq<Field>, r: Record, m: Msg): Option<Msg>
    requires ShapeOk(fields, m)
  {
    var i := Find(fields, r.tag);
    if i < 0 then Some(m)
    else
      var f, c := fields[i], CellOf(fields, i);
      if HasPlace(f, m[c]) && exists v :: Gives(f, Before(f, m[c]), r.payload, v) then
        var v :| Gives(f, Before(f, m[c]), r.payload, v);
        Some(m[c := With(f, m[c], v)])
      else None
  }

  /** Setting a cell keeps the kinds of all. */
  lemma ApplyKeepsShape(fields: seq<Field>, r: Record, m: Msg)
    requires ShapeOk(fields, m) && Apply(fields, r, m).Some?
    ensures ShapeOk(fields, Apply(fields, r, m).value)
  {
    var i, m' := Find(fields, r.tag), Apply(fields, r, m).value;
    if i >= 0 {
      var c := CellOf(fields, i);
      forall j | 0 <= j < |fields| ensures KindOk(fields[j], m'[CellOf(fields, j)]) {
        if CellOf(fields, j) == c && j != i { CellsApart(fields, j, i); }
      }
    }
  }

  ghost function ApplyAll(fields: seq<Field>, rs: seq<Record>, m: Msg): (o: Option<Msg>)
    requires ShapeOk(fields, m)
    ensures o.Some? ==> ShapeOk(fields, o.value)
    decreases |rs|
  {
    if rs == [] then Some(m)
    else
      var o := Apply(fields, rs[0], m);
      if o.None? then None
      else
        ApplyKeepsShape(fields, rs[0], m);
        ApplyAll(fields, rs[1..], o.value)
  }

  function RecordsBytes(rs: seq<Record>): seq<byte>
  {
    if rs == [] then [] else RecordBytes(rs[0]) + RecordsBytes(rs[1..])
  }

  /** Records that a parser can be given for this type: each of the wire type of its field, if it has
      one. (Packed blocks are in PbMerge.ChunksDecoded.) */
  predicate RecordsSuit(fields: seq<Field>, rs: seq<Record>)
  {
    forall j :: 0 <= j < |rs| ==>
      RecordOk(rs[j]) && (Find(fields, rs[j].tag) >= 0 ==> Suits(fields[Find(fields, rs[j].tag)], rs[j].payload))
  }

  function MetOne(fields: seq<Field>, r: Record, seen: set<nat>): set<nat>
  {
    var i := Find(fields, r.tag);
    if i < 0 then seen else Met(fields, i, seen)
  }

  function MetAll(fields: seq<Field>, rs: seq<Record>, seen: set<nat>): set<nat>
    decreases |rs|
  {
    if rs == [] then seen else MetAll(fields, rs[1..], MetOne(fields, rs[0], seen))
  }

  lemma OneApplied(fields: seq<Field>, r: Record, t: seq<byte>, m: Msg, seen: set<nat>)
    requires WellFormed(fields) && ShapeOk(fields, m) && RecordOk(r)
    requires Find(fields, r.tag) >= 0 ==> Suits(fields[Find(fields, r.tag)], r.payload)
    ensures var o := Apply(fields, r, m);
      DecLoop(fields, RecordBytes(r) + t, m, seen) ==
        if o.None? then Fail else DecLoop(fields, t, o.value, MetOne(fields, r, seen))
  {
    hide WellFormed, DecLoop, Gives, Bytes, Varint, RequiredBefore, CellOf;
    var i := Find(fields, r.tag);
    if i < 0 {
      RecordSkipped(fields, r, t, m, seen);
    } else {
      var f, c := fields[i], CellOf(fields, i);
      assert r == Record(f.tag, r.payload);
      if HasPlace(f, m[c]) && exists v :: Gives(f, Before(f, m[c]), r.payload, v) {
        var v :| Gives(f, Before(f, m[c]), r.payload, v)
          && Apply(fields, r, m) == Some(m[c := With(f, m[c], v)]);
        RecordDecoded(fields, i, r.payload, v, t, m, seen);
      } else {
        RecordDecoded(fields, i, r.payload, VInt(0), t, m, seen);
      }
    }
  }

  /** The decoder's loop over records is the fold over them. */
  lemma {:induction false} LoopIsFold(fields: seq<Field>, rs: seq<Record>, m: Msg, seen: set<nat>)
    requires WellFormed(fields) && ShapeOk(fields, m) && RecordsSuit(fields, rs)
    ensures var o := ApplyAll(fields, rs, m);
      DecLoop(fields, RecordsBytes(rs), m, seen) ==
        if o.None? then Fail else Done(o.value, MetAll(fields, rs, seen), [], false)
    decreases |rs|
  {
    hide WellFormed, Apply, MetOne, RecordBytes, ShapeOk;
    if rs != [] {
      hide DecLoop;
      assert RecordOk(rs[0]);
      OneApplied(fields, rs[0], RecordsBytes(rs[1..]), m, seen);
      var o := Apply(fields, rs[0], m);
      if o.Some? {
        ApplyKeepsShape(fields, rs[0], m);
        LoopIsFold(fields, rs[1..], o.value, MetOne(fields, rs[0], seen));
      }
    }
  }

  /** Members that no record mentions are as they were; so a submessage that is decoded over an older
      one keeps what the new records do not mention. */
  lemma {:induction false} UnmentionedStay(fields: seq<Field>, rs: seq<Record>, m: Msg, c: nat)
    requires ShapeOk(fields, m) && ApplyAll(fields, rs, m).Some? && c < |fields|
    requires forall j :: 0 <= j < |rs| && Find(fields, rs[j].tag) >= 0 ==> CellOf(fields, Find(fields, rs[j].tag)) != c
    ensures ApplyAll(fields, rs, m).value[c] == m[c]
    decreases |rs|
  {
    hide ShapeOk, Gives, CellOf;
    if rs != [] {
      ShapeMeans(fields, m);
      ApplyKeepsShape(fields, rs[0], m);
      ElsewhereStays(fields, rs[0], m, c);
      UnmentionedStay(fields, rs[1..], Apply(fields, rs[0], m).value, c);
    }
  }

  lemma ShapeMeans(fields: seq<Field>, m: Msg)
    requires ShapeOk(fields, m)
    ensures |m| == |fields|
  {}

  lemma ElsewhereStays(fields: seq<Field>, r: Record, m: Msg, c: nat)
    requires ShapeOk(fields, m) && Apply(fields, r, m).Some? && c < |fields|
    requires Find(fields, r.tag) >= 0 ==> CellOf(fields, Find(fields, r.tag)) != c
    ensures |Apply(fields, r, m).value| == |m| == |fields| && Apply(fields, r, m).value[c] == m[c]
  {}

  // ------------------------------------------------------ required fields

  /** The field is required, and among the first 64 that are. */
  predicate IsChecked(fields: seq<Field>, i: nat)
    requires i < |fields|
  {
    fields[i].htype.Required? && RequiredBefore(fields, i) < 64
  }

  predicate Mentioned(rs: seq<Record>, tag: nat) { exists j :: 0 <= j < |rs| && rs[j].tag == tag }

  predicate RequiredMentioned(fields: seq<Field>, rs: seq<Record>)
  {
    forall i :: 0 <= i < |fields| && IsChecked(fields, i) ==> Mentioned(rs, fields[i].tag)
  }

  lemma {:induction false} RequiredGrows(fields: seq<Field>, i: nat, k: nat)
    requires i < k <= |fields| && fields[i].htype.Required?
    ensures RequiredBefore(fields, i) < RequiredBefore(fields, k)
    decreases k
  {
    if k > i + 1 { RequiredGrows(fields, i, k - 1); }
  }

  /** The index of a checked field is met just if its tag has been, or it was met before. */
  lemma {:induction false} MetExactly(fields: seq<Field>, rs: seq<Record>, seen: set<nat>, i: nat)
    requires WellFormed(fields) && i < |fields| && IsChecked(fields, i)
    ensures RequiredBefore(fields, i) in MetAll(fields, rs, seen)
      <==> RequiredBefore(fields, i) in seen || Mentioned(rs, fields[i].tag)
    decreases |rs|
  {
    hide WellFormed, RequiredBefore;
    if rs != [] {
      MetExactly(fields, rs[1..], MetOne(fields, rs[0], seen), i);
      MetHere(fields, rs[0], seen, i);
      assert Mentioned(rs, fields[i].tag) <==> rs[0].tag == fields[i].tag || Mentioned(rs[1..], fields[i].tag) by {
        assert forall j :: 1 <= j < |rs| ==> rs[j] == rs[1..][j - 1];
      }
    }
  }

  lemma MetHere(fields: seq<Field>, r: Record, seen: set<nat>, i: nat)
    requires WellFormed(fields) && i < |fields| && IsChecked(fields, i)
    ensures RequiredBefore(fields, i) in MetOne(fields, r, seen)
      <==> RequiredBefore(fields, i) in seen || r.tag == fields[i].tag
  {
    FindIs(fields, i);
    hide RequiredBefore, WellFormed;
    var k := Find(fields, r.tag);
    if k >= 0 && k < i && fields[k].htype.Required? { RequiredGrows(fields, k, i); }
    if k > i && fields[k].htype.Required? { RequiredGrows(fields, i, k); }
  }

  lemma AllMet(fields: seq<Field>, seen: set<nat>)
    ensures AllRequired(fields, seen)
      <==> forall i :: 0 <= i < |fields| && IsChecked(fields, i) ==> RequiredBefore(fields, i) in seen
  {
    hide RequiredBefore;
    if AllRequired(fields, seen) {
      forall i | 0 <= i < |fields| && IsChecked(fields, i) ensures RequiredBefore(fields, i) in seen {
        RequiredGrows(fields, i, |fields|);
      }
    } else {
      var k: nat :| k < RequiredBefore(fields, |fields|) && k < PB_MAX_REQUIRED_FIELDS && k !in seen;
      var i := RequiredAt(fields, |fields|, k);
      assert IsChecked(fields, i);
    }
  }

  /** pb_decode_noinit of records succeeds just if none of them is refused and each required field,
      of the first 64, has one; and then the message is what the fold makes of them. */
  lemma RequiredExactly(fields: seq<Field>, rs: seq<Record>, m: Msg)
    requires WellFormed(fields) && ShapeOk(fields, m) && RecordsSuit(fields, rs)
    ensures var o := ApplyAll(fields, rs, m);
      DecNoInit(fields, RecordsBytes(rs), m) ==
        if o.Some? && RequiredMentioned(fields, rs) then Ok(o.value, []) else Err
  {
    hide WellFormed, ShapeOk, RecordsSuit, DecLoop, ApplyAll, MetAll, RecordsBytes, IsChecked, Mentioned, AllRequired,
      RequiredBefore;
    LoopIsFold(fields, rs, m, {});
    var seen := MetAll(fields, rs, {});
    AllMet(fields, seen);
    forall i | 0 <= i < |fields| && IsChecked(fields, i)
      ensures RequiredBefore(fields, i) in seen <==> Mentioned(rs, fields[i].tag)
    {
      MetExactly(fields, rs, {}, i);
    }
  }

  lemma SubmessageGives(f: Field, start: Value, b: seq<byte>)
    requires f.ltype.LSubmessage? && start.VMsg?
    ensures match DecNoInit(f.ltype.fields, b, start.m)
      case Err => forall v :: !Gives(f, start, Block(b), v)
      case Ok(d, _) => Gives(f, start, Block(b), VMsg(d))
  {
    hide DecNoInit;
  }

  /** A block for a submessage field. */
  lemma SubmessageDecoded(fields: seq<Field>, i: nat, b: seq<byte>, t: seq<byte>, m: Msg, seen: set<nat>)
    requires WellFormed(fields) && i < |fields| && |m| == |fields| && KindOk(fields[i], m[CellOf(fields, i)])
    requires fields[i].ltype.LSubmessage? && |b| < 0x1_0000_0000
    requires Before(fields[i], m[CellOf(fields, i)]).VMsg? && HasPlace(fields[i], m[CellOf(fields, i)])
    ensures var f, c := fields[i], CellOf(fields, i);
      DecLoop(fields, Varint(8 * f.tag + 2) + (Varint(|b|) + b) + t, m, seen) ==
        match DecNoInit(f.ltype.fields, b, Before(f, m[c]).m)
        case Err => Fail
        case Ok(d, _) => DecLoop(fields, t, m[c := With(f, m[c], VMsg(d))], Met(fields, i, seen))
  {
    hide WellFormed, DecLoop, Varint, CellOf, Met, DecNoInit, Gives, With, Before, HasPlace, KindOk;
    var f, c := fields[i], CellOf(fields, i);
    var d := DecNoInit(f.ltype.fields, b, Before(f, m[c]).m);
    SubmessageGives(f, Before(f, m[c]), b);
    RecordDecoded(fields, i, Block(b), if d.Ok? then VMsg(d.val) else VInt(0), t, m, seen);
  }

  /** A second occurrence of a submessage is decoded over the first: what the new records say is
      applied to it, and by UnmentionedStay what they do not mention is kept. */
  lemma SubmessagesMerge(fields: seq<Field>, i: nat, rs: seq<Record>, t: seq<byte>, m: Msg, seen: set<nat>)
    requires WellFormed(fields) && i < |fields| && |m| == |fields| && KindOk(fields[i], m[CellOf(fields, i)])
    requires fields[i].ltype.LSubmessage? && (fields[i].htype.Required? || fields[i].htype.Optional?)
    requires m[CellOf(fields, i)].v.VMsg? && ShapeOk(fields[i].ltype.fields, m[CellOf(fields, i)].v.m)
    requires RecordsSuit(fields[i].ltype.fields, rs) && |RecordsBytes(rs)| < 0x1_0000_0000
    requires RequiredMentioned(fields[i].ltype.fields, rs)
    ensures var f, c, b := fields[i], CellOf(fields, i), RecordsBytes(rs);
      var o, d := DecLoop(fields, Varint(8 * f.tag + 2) + (Varint(|b|) + b) + t, m, seen), ApplyAll(f.ltype.fields, rs, m[c].v.m);
      o == if d.None? then Fail else DecLoop(fields, t, m[c := With(f, m[c], VMsg(d.value))], Met(fields, i, seen))
  {
    assert FieldOk(fields[i]);
    hide WellFormed, DecLoop, Varint, CellOf, Met, DecNoInit, ApplyAll, RequiredMentioned, RecordsBytes, ShapeOk,
      RecordsSuit, With;
    RequiredExactly(fields[i].ltype.fields, rs, m[CellOf(fields, i)].v.m);
    SubmessageDecoded(fields, i, RecordsBytes(rs), t, m, seen);
  }

  /** A union member that is a submessage is decoded into its defaults, whatever the union held. */
  lemma UnionStartsAnew(fields: seq<Field>, i: nat, b: seq<byte>, t: seq<byte>, m: Msg, seen: set<nat>)
    requires WellFormed(fields) && i < |fields| && |m| == |fields| && KindOk(fields[i], m[CellOf(fields, i)])
    requires fields[i].htype.OneOf? && fields[i].ltype.LSubmessage? && |b| < 0x1_0000_0000
    ensures var f, c, sub := fields[i], CellOf(fields, i), fields[i].ltype.fields;
      var d := DecNoInit(sub, b, Defaults(sub));
      DecLoop(fields, Varint(8 * f.tag + 2) + (Varint(|b|) + b) + t, m, seen) ==
        if d.Ok? then DecLoop(fields, t, m[c := Union(f.tag, VMsg(d.val))], seen) else Fail
  {
    hide WellFormed, DecLoop, Varint, CellOf, RequiredBefore, DecNoInit, Defaults;
    SubmessageDecoded(fields, i, b, t, m, seen);
  }
}
