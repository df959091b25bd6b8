/** What is on the wire, after the Protocol Buffers Encoding specification (sections "Base 128
    Varints", "Message Structure" and "Packed Repeated Fields"): a reader of records that knows
    nothing of encoder and decoder, and which records stand for a message. */
module PbFormat {
  import opened Options
  import opened Bits
  import opened PbWire
  import opened PbSchema
  import opened PbEncodeSpec

  // ------------------------------------------------------ records

  /** What stands behind a key: a number (wire type 0), eight bytes (1), a block of bytes behind its
      length (2), or four bytes (5). */
  datatype Payload = Number(u: nat) | Eight(b: seq<byte>) | Block(b: seq<byte>) | Four(b: seq<byte>)

  datatype Record = Record(tag: nat, payload: Payload)

  /** Groups of seven bits, the lowest first; all but the last have the top bit set. */
  function ReadNumber(s: seq<byte>): (p: Parse<nat>)
    ensures p.Ok? ==> |p.rest| < |s|
  {
    if s == [] then Err
    else if s[0] < 0x80 then Ok(s[0], s[1..])
    else
      match ReadNumber(s[1..])
      case Err => Err
      case Ok(v, rest) => Ok((s[0] as int) - 0x80 + 0x80 * v, rest)
  }

  function ReadBytes(s: seq<byte>, n: nat): (p: Parse<seq<byte>>)
    ensures p.Ok? ==> |p.rest| <= |s|
  {
    if n <= |s| then Ok(s[..n], s[n..]) else Err
  }

  /** A length and as many bytes. */
  function ReadDelimited(s: seq<byte>): (p: Parse<Payload>)
    ensures p.Ok? ==> |p.rest| <= |s|
  {
    match ReadNumber(s)
    case Err => Err
    case Ok(n, rest) => match ReadBytes(rest, n) case Err => Err case Ok(b, rest') => Ok(Block(b), rest')
  }

  function ReadPayload(w: nat, s: seq<byte>): (p: Parse<Payload>)
    ensures p.Ok? ==> |p.rest| <= |s|
  {
    if w == 0 then
      match ReadNumber(s) case Err => Err case Ok(u, rest) => Ok(Number(u), rest)
    else if w == 1 then
      match ReadBytes(s, 8) case Err => Err case Ok(b, rest) => Ok(Eight(b), rest)
    else if w == 2 then ReadDelimited(s)
    else if w == 5 then
      match ReadBytes(s, 4) case Err => Err case Ok(b, rest) => Ok(Four(b), rest)
    else Err
  }

  function ReadRecord(s: seq<byte>): (p: Parse<Record>)
    ensures p.Ok? ==> |p.rest| < |s|
  {
    match ReadNumber(s)
    case Err => Err
    case Ok(key, rest) =>
      match ReadPayload(key % 8, rest) case Err => Err case Ok(p, rest') => Ok(Record(key / 8, p), rest')
  }

  function ReadRecords(s: seq<byte>): Option<seq<Record>>
    decreases |s|
  {
    if s == [] then Some([])
    else
      match ReadRecord(s)
      case Err => None
      case Ok(r, rest) =>
        var rs := ReadRecords(rest);
        if rs.None? then None else Some([r] + rs.value)
  }

  // ------------------------------------------------------ what stands for a value

  /** The number that bytes stand for, the least significant first. */
  function NumberOf(b: seq<byte>): nat
  {
    if b == [] then 0 else (b[0] as int) + 0x100 * NumberOf(b[1..])
  }

  /** The wire type of a field's values. */
  function WireNumber(l: LType): nat
  {
    match l
    case LVarint => 0
    case LUVarint => 0
    case LSVarint => 0
    case LFixed64 => 1
    case LFixed32 => 5
    case _ => 2
  }

  /** The text in a character buffer of `size` bytes: up to the terminator, or to the end. */
  predicate IsText(b: seq<byte>, size: nat, text: seq<byte>)
  {
    && text <= b && |text| <= size && 0 !in text
    && (|text| == size || |text| == |b| || b[|text|] == 0)
  }

  /** The payload stands for the value. */
  predicate Shows(f: Field, v: Value, p: Payload)
    decreases f, 0
  {
    match f.ltype
    case LVarint =>
      v.VInt? && v.i >= -0x8000_0000_0000_0000 && p == Number(if v.i < 0 then v.i + 0x1_0000_0000_0000_0000 else v.i)
    case LUVarint => v.VInt? && v.i >= 0 && p == Number(v.i)
    case LSVarint => v.VInt? && p == Number(if v.i < 0 then -2 * v.i - 1 else 2 * v.i)
    case LFixed32 => v.VInt? && p.Four? && |p.b| == 4 && NumberOf(p.b) == v.i
    case LFixed64 => v.VInt? && p.Eight? && |p.b| == 8 && NumberOf(p.b) == v.i
    case LBytes => v.VBytes? && p == Block(v.b)
    case LFixedLengthBytes => v.VBytes? && p == Block(v.b)
    case LString => v.VBytes? && p.Block? && IsText(v.b, f.dataSize, p.b)
    case LSubmessage(sub) =>
      v.VMsg? && p.Block? && ReadRecords(p.b).Some? && |v.m| == |sub| && MsgShows(sub, v.m, 0, ReadRecords(p.b).value)
  }

  predicate Shown(f: Field, v: Value, r: Record)
    decreases f, 1
  {
    r.tag == f.tag && Shows(f, v, r.payload)
  }

  /** The entries of a packed array, one payload after the other. */
  predicate Entries(f: Field, vs: seq<Value>, b: seq<byte>)
    decreases f, 1, |vs|
  {
    if vs == [] then b == []
    else
      match ReadPayload(WireNumber(f.ltype), b)
      case Err => false
      case Ok(p, rest) => Shows(f, vs[0], p) && Entries(f, vs[1..], rest)
  }

  // ------------------------------------------------------ what stands for a message

  /** Nothing is said of a member that has its zero value: no flag, no entry, no member of the union,
      zero, no byte, no text, a submessage in which nothing is said. */
  predicate Unset(f: Field, cell: Cell)
    decreases f, 1
  {
    match f.htype
    case Required => false
    case Repeated => cell == Arr([])
    case OneOf => cell.Union? && cell.which == 0
    case Optional => if f.sizeOffset != 0 then cell.Opt? && !cell.has else cell.Single? && Empty(f, cell.v)
  }

  predicate Empty(f: Field, v: Value)
    decreases f, 0
  {
    match f.ltype
    case LBytes => v == VBytes([])
    case LString => v.VBytes? && (v.b == [] || v.b[0] == 0)
    case LFixedLengthBytes => f.dataSize == 0
    case LSubmessage(sub) =>
      v.VMsg? && |v.m| == |sub| && forall i :: 0 <= i < |sub| ==> Unset(sub[i], v.m[CellOf(sub, i)])
    case _ => v == VInt(0)
  }

  /** Numbers, of which an array is packed. */
  predicate IsNumeric(l: LType) { l.LVarint? || l.LUVarint? || l.LSVarint? || l.LFixed32? || l.LFixed64? }

  /** How many records a member has. */
  function Count(f: Field, cell: Cell): nat
  {
    match f.htype
    case Required => 1
    case Optional => if Unset(f, cell) then 0 else 1
    case Repeated => if !cell.Arr? || cell.vs == [] then 0 else if IsNumeric(f.ltype) then 1 else |cell.vs|
    case OneOf => if cell.Union? && cell.which == f.tag then 1 else 0
  }

  /** The records stand for a member. */
  predicate FieldShows(f: Field, cell: Cell, rs: seq<Record>)
    decreases f, 2
  {
    |rs| == Count(f, cell) &&
    match f.htype
    case Required => cell.Single? && Shown(f, cell.v, rs[0])
    case Optional =>
      (if f.sizeOffset != 0 then cell.Opt? else cell.Single?) && (rs == [] || Shown(f, cell.v, rs[0]))
    case OneOf => cell.Union? && (rs == [] || Shown(f, cell.u, rs[0]))
    case Repeated =>
      && cell.Arr? && |cell.vs| <= f.arraySize
      && (if IsNumeric(f.ltype) then
            rs == [] || (rs[0].tag == f.tag && rs[0].payload.Block? && Entries(f, cell.vs, rs[0].payload.b))
          else forall j :: 0 <= j < |rs| ==> Shown(f, cell.vs[j], rs[j]))
  }

  /** The records stand for the members from position `i` on, in the order of the fields. */
  predicate MsgShows(fields: seq<Field>, m: Msg, i: nat, rs: seq<Record>)
    requires |m| == |fields| && i <= |fields|
    decreases fields, |fields| - i
  {
    if i == |fields| then rs == []
    else
      var cell := m[CellOf(fields, i)];
      var n := Count(fields[i], cell);
      n <= |rs| && FieldShows(fields[i], cell, rs[..n]) && MsgShows(fields, m, i + 1, rs[n..])
  }

  // ------------------------------------------------------ numbers are read back

  lemma {:induction false} NumberRead(v: nat, t: seq<byte>)
    ensures ReadNumber(Varint(v) + t) == Ok(v, t)
    decreases v
  {
    hide Varint;
    VarintUncons(v, t);
    if v >= 128 { NumberRead(v / 128, t); }
  }

  lemma BytesRead(b: seq<byte>, t: seq<byte>)
    ensures ReadBytes(b + t, |b|) == Ok(b, t)
  {
    assert (b + t)[..|b|] == b && (b + t)[|b|..] == t;
  }

  lemma BlockRead(b: seq<byte>, t: seq<byte>)
    ensures ReadDelimited(Varint(|b|) + b + t) == Ok(Block(b), t)
    ensures ReadPayload(2, Varint(|b|) + b + t) == Ok(Block(b), t)
  {
    hide Varint, ReadNumber, ReadBytes, ReadDelimited;
    var s := Varint(|b|) + b + t;
    assert s == Varint(|b|) + (b + t);
    NumberRead(|b|, b + t);
    BytesRead(b, t);
    BlockIs(s, |b|, b + t, b, t);
  }

  lemma BlockIs(s: seq<byte>, n: nat, rest: seq<byte>, b: seq<byte>, t: seq<byte>)
    requires ReadNumber(s) == Ok(n, rest) && ReadBytes(rest, n) == Ok(b, t)
    ensures ReadDelimited(s) == Ok(Block(b), t)
  {
    hide ReadNumber, ReadBytes;
  }

  lemma {:induction false} LittleEndianNumber(v: nat, n: nat)
    requires v < Pow256(n)
    ensures NumberOf(LittleEndian(v, n)) == v
    decreases n
  {
    if n > 0 {
      assert v / 256 < Pow256(n - 1) by { assert Pow256(n) == 256 * Pow256(n - 1); }
      LittleEndianNumber(v / 256, n - 1);
      assert LittleEndian(v, n)[1..] == LittleEndian(v / 256, n - 1);
    }
  }

  /** The bytes of an integer are read back as the payload that shows it. */
  lemma IntShown(f: Field, i: int, t: seq<byte>) returns (p: Payload)
    requires IsNumeric(f.ltype) && IntFits(f, i)
    ensures ReadPayload(WireNumber(f.ltype), IntBytes(f, i) + t) == Ok(p, t) && Shows(f, VInt(i), p)
  {
    hide Varint, ReadNumber, ReadBytes, LittleEndian, NumberOf, ZigZag;
    if f.ltype.LFixed32? || f.ltype.LFixed64? {
      Pow256Values();
      LittleEndianNumber(i, if f.ltype.LFixed32? then 4 else 8);
      BytesRead(IntBytes(f, i), t);
      p := if f.ltype.LFixed32? then Four(IntBytes(f, i)) else Eight(IntBytes(f, i));
    } else if f.ltype.LSVarint? {
      ZigZagInverts(i);
      NumberRead(ZigZag(i), t);
      p := Number(ZigZag(i));
    } else {
      NumberRead(U64(i), t);
      p := Number(U64(i));
    }
  }

  lemma {:induction false} CStringIsText(b: seq<byte>, size: nat)
    ensures IsText(b, size, CString(b, size))
    decreases size
  {
    if b != [] && size > 0 && b[0] != 0 { CStringIsText(b[1..], size - 1); }
  }

  // ------------------------------------------------------ what the encoder writes

  lemma UnsetIs(f: Field, cell: Cell)
    ensures IsZero(f, cell) <==> Unset(f, cell)
    decreases f, 1
  {
    if cell.Single? { EmptyIs(f, cell.v); }
  }

  lemma EmptyIs(f: Field, v: Value)
    ensures IsZeroValue(f, v) <==> Empty(f, v)
    decreases f, 0
  {
    if f.ltype.LSubmessage? && v.VMsg? && |v.m| == |f.ltype.fields| { AllUnsetIs(f.ltype.fields, v.m, 0); }
  }

  lemma AllUnsetIs(fields: seq<Field>, m: Msg, i: nat)
    requires |m| == |fields| && i <= |fields|
    ensures AllZero(fields, m, i) <==> forall j :: i <= j < |fields| ==> Unset(fields[j], m[CellOf(fields, j)])
    decreases fields, |fields| - i
  {
    hide CellOf, Unset, IsZero;
    if i < |fields| {
      UnsetIs(fields[i], m[CellOf(fields, i)]);
      AllUnsetIs(fields, m, i + 1);
    }
  }

  lemma ValueShown(f: Field, v: Value, e: seq<byte>, t: seq<byte>) returns (p: Payload)
    requires EncValue(f, v) == Some(e)
    ensures ReadPayload(WireNumber(f.ltype), e + t) == Ok(p, t) && Shows(f, v, p)
    decreases f, 0
  {
    if IsNumeric(f.ltype) {
      hide IntBytes, ReadPayload, Shows;
      p := IntShown(f, v.i, t);
    } else {
      var b := if f.ltype.LString? then CString(v.b, f.dataSize)
               else if f.ltype.LSubmessage? then EncMsg(f.ltype.fields, v.m).value else v.b;
      p := Block(b);
      hide ReadPayload, IsText, Varint, CString;
      BlockRead(b, t);
      if f.ltype.LString? { CStringIsText(v.b, f.dataSize); }
      if f.ltype.LSubmessage? { var rs := FromRead(f.ltype.fields, v.m, 0, b); }
    }
  }

  lemma RecordRead(tag: nat, w: WireType, e: seq<byte>, p: Payload, t: seq<byte>)
    requires ReadPayload(w, e + t) == Ok(p, t)
    ensures ReadRecord(Varint(8 * tag + w) + e + t) == Ok(Record(tag, p), t)
    ensures ReadRecords(t).Some? ==> ReadRecords(Varint(8 * tag + w) + e + t) == Some([Record(tag, p)] + ReadRecords(t).value)
  {
    hide Varint, ReadNumber, ReadPayload;
    assert Varint(8 * tag + w) + e + t == Varint(8 * tag + w) + (e + t);
    NumberRead(8 * tag + w, e + t);
  }

  lemma ItemsRead(f: Field, vs: seq<Value>, e: seq<byte>, t: seq<byte>) returns (rs: seq<Record>)
    requires EncItems(f, vs) == Some(e) && ReadRecords(t).Some?
    ensures |rs| == |vs| && forall j :: 0 <= j < |rs| ==> Shown(f, vs[j], rs[j])
    ensures ReadRecords(e + t) == Some(rs + ReadRecords(t).value)
    decreases f, 1, |vs|
  {
    hide ReadRecords, ReadPayload, Shows, EncValue, Varint;
    if vs == [] {
      rs := [];
      assert e + t == t && [] + ReadRecords(t).value == ReadRecords(t).value;
    } else {
      var e0, e1 := EncValue(f, vs[0]).value, EncItems(f, vs[1..]).value;
      var rest := ItemsRead(f, vs[1..], e1, t);
      var p := ValueShown(f, vs[0], e0, e1 + t);
      RecordRead(f.tag, WireTypeOf(f.ltype), e0, p, e1 + t);
      assert e + t == Varint(8 * f.tag + WireTypeOf(f.ltype)) + e0 + (e1 + t);
      rs := [Record(f.tag, p)] + rest;
      assert rs + ReadRecords(t).value == [Record(f.tag, p)] + (rest + ReadRecords(t).value);
    }
  }

  lemma {:induction false} PayloadIsEntries(f: Field, vs: seq<Value>, b: seq<byte>)
    requires IsNumeric(f.ltype) && EncPayload(f, vs) == Some(b)
    ensures Entries(f, vs, b)
    decreases f, 1, |vs|
  {
    hide ReadPayload, Shows, EncValue;
    if vs != [] {
      var e0, e1 := EncValue(f, vs[0]).value, EncPayload(f, vs[1..]).value;
      var p := ValueShown(f, vs[0], e0, e1);
      PayloadIsEntries(f, vs[1..], e1);
    }
  }

  lemma PackedRead(f: Field, vs: seq<Value>, e: seq<byte>, t: seq<byte>) returns (rs: seq<Record>)
    requires IsNumeric(f.ltype) && vs != [] && EncPacked(f, vs) == Some(e) && ReadRecords(t).Some?
    ensures |rs| == 1 && rs[0].tag == f.tag && rs[0].payload.Block? && Entries(f, vs, rs[0].payload.b)
    ensures ReadRecords(e + t) == Some(rs + ReadRecords(t).value)
    decreases f, 2
  {
    hide ReadRecords, ReadPayload, EncPayload, Varint, Entries;
    var b := EncPayload(f, vs).value;
    PayloadIsEntries(f, vs, b);
    BlockRead(b, t);
    RecordRead(f.tag, 2, Varint(|b|) + b, Block(b), t);
    rs := [Record(f.tag, Block(b))];
    assert e + t == Varint(8 * f.tag + 2) + (Varint(|b|) + b) + t;
  }

  lemma FieldRead(f: Field, cell: Cell, e: seq<byte>, t: seq<byte>) returns (rs: seq<Record>)
    requires EncField(f, cell) == Some(e) && ReadRecords(t).Some?
    ensures FieldShows(f, cell, rs) && ReadRecords(e + t) == Some(rs + ReadRecords(t).value)
    decreases f, 3
  {
    hide ReadRecords, Shown, Entries, EncItems, EncPacked, IsZero, Unset;
    UnsetIs(f, cell);
    var vs := Items(f, cell).value;
    if f.htype.Repeated? && IsNumeric(f.ltype) && vs != [] {
      rs := PackedRead(f, vs, e, t);
    } else if f.htype.Repeated? && IsNumeric(f.ltype) {
      NoneRead(f, e, t);
      rs := [];
    } else {
      rs := ItemsRead(f, vs, e, t);
      UnsetFlag(f, cell);
    }
  }

  lemma NoneRead(f: Field, e: seq<byte>, t: seq<byte>)
    requires EncPacked(f, []) == Some(e) && ReadRecords(t).Some?
    ensures ReadRecords(e + t) == Some([] + ReadRecords(t).value)
  {
    assert e + t == t && [] + ReadRecords(t).value == ReadRecords(t).value;
  }

  lemma UnsetFlag(f: Field, cell: Cell)
    ensures HasFlag(f) ==> (Unset(f, cell) <==> cell.Opt? && !cell.has)
  {}

  lemma FromRead(fields: seq<Field>, m: Msg, i: nat, e: seq<byte>) returns (rs: seq<Record>)
    requires |m| == |fields| && i <= |fields| && EncFrom(fields, m, i) == Some(e)
    ensures ReadRecords(e) == Some(rs) && MsgShows(fields, m, i, rs)
    decreases fields, |fields| - i
  {
    hide EncField, FieldShows, Count, CellOf;
    if i == |fields| {
      rs := [];
    } else {
      var f, cell := fields[i], m[CellOf(fields, i)];
      var e0, e1 := EncField(f, cell).value, EncFrom(fields, m, i + 1).value;
      var rest := FromRead(fields, m, i + 1, e1);
      var rs0 := FieldRead(f, cell, e0, e1);
      FieldCount(f, cell, rs0);
      rs := rs0 + rest;
      assert rs[..|rs0|] == rs0 && rs[|rs0|..] == rest;
    }
  }

  lemma FieldCount(f: Field, cell: Cell, rs: seq<Record>)
    requires FieldShows(f, cell, rs)
    ensures |rs| == Count(f, cell)
  {}

  /** What pb_encode writes for a message is a sequence of records, each a key with its tag and the
      wire type of its payload; and they stand for the members that have something to say, in the
      order of the fields, down through submessages: a record a value, but one with all entries for
      an array of numbers, and none for a proto3 member that is zero. */
  lemma EncodedForm(fields: seq<Field>, m: Msg, e: seq<byte>)
    requires EncMsg(fields, m) == Some(e)
    ensures ReadRecords(e).Some? && |m| == |fields| && MsgShows(fields, m, 0, ReadRecords(e).value)
  {
    hide MsgShows, ReadRecords, EncFrom;
    var rs := FromRead(fields, m, 0, e);
  }

  /** An instance: a required fixed32 field with tag 1 and value 1. */
  lemma FixedOnTheWire(f: Field)
    requires f.tag == 1 && f.htype.Required? && f.ltype.LFixed32?
    ensures EncMsg([f], [Single(VInt(1))]) == Some([0x0D, 1, 0, 0, 0])
  {
    hide EncItems, CellOf, IsZero, EncFrom;
    var fields, m := [f], [Single(VInt(1))];
    OneItem(f);
    OneField(f, m);
    assert m[0] == Single(VInt(1)) && [0x0D, 1, 0, 0, 0] + [] == [0x0D, 1, 0, 0, 0];
  }

  lemma OneField(f: Field, m: Msg)
    requires |m| == 1
    ensures CellOf([f], 0) == 0 && EncFrom([f], m, 0) == Cat(EncField(f, m[0]), Some([]))
  {
    hide EncField;
    assert EncFrom([f], m, 1) == Some([]);
  }

  lemma OneItem(f: Field)
    requires f.tag == 1 && f.ltype.LFixed32?
    ensures EncItems(f, [VInt(1)]) == Some([0x0D, 1, 0, 0, 0])
  {
    assert LittleEndian(0, 1) == [0] && LittleEndian(0, 2) == [0, 0] && LittleEndian(0, 3) == [0, 0, 0];
    assert LittleEndian(1, 4) == [1, 0, 0, 0];
    assert Key(1, WireTypeOf(f.ltype)) == [0x0D];
    hide LittleEndian, Key;
    assert EncItems(f, []) == Some([]) && [VInt(1)][1..] == [];
    assert [0x0D] + [1, 0, 0, 0] + [] == [0x0D, 1, 0, 0, 0];
  }

  // ------------------------------------------------------ what can be encoded

  /** 2^(8 * size - 1), for the sizes of C's integers. */
  function Half(size: nat): int
  {
    if size == 1 then 0x80 else if size == 2 then 0x8000 else if size == 4 then 0x8000_0000 else 0x8000_0000_0000_0000
  }

  predicate SizeOk(size: nat) { size == 1 || size == 2 || size == 4 || size == 8 }

  /** A C variable of the field's type and size can hold the number. */
  predicate Holds(f: Field, i: int)
  {
    match f.ltype
    case LUVarint => SizeOk(f.dataSize) && 0 <= i < 2 * Half(f.dataSize)
    case LFixed32 => 0 <= i < 0x1_0000_0000
    case LFixed64 => 0 <= i < 0x1_0000_0000_0000_0000
    case _ => SizeOk(f.dataSize) && -Half(f.dataSize) <= i < Half(f.dataSize)
  }

  /** A value that is within its memory. */
  predicate CanEncodeValue(f: Field, v: Value)
    decreases f, 0
  {
    match f.ltype
    case LBytes => v.VBytes? && |v.b| + 4 <= f.dataSize
    case LString => v.VBytes?
    case LFixedLengthBytes => v.VBytes? && |v.b| == f.dataSize
    case LSubmessage(sub) =>
      v.VMsg? && |v.m| == |sub| && forall i :: 0 <= i < |sub| ==> CanEncode(sub[i], v.m[CellOf(sub, i)])
    case _ => v.VInt? && Holds(f, v.i)
  }

  /** A member whose values are, as far as they are encoded, and with no more entries than it has
      room for. */
  predicate CanEncode(f: Field, cell: Cell)
    decreases f, 1
  {
    match f.htype
    case Required => cell.Single? && CanEncodeValue(f, cell.v)
    case Optional =>
      if f.sizeOffset != 0 then cell.Opt? && (cell.has ==> CanEncodeValue(f, cell.v))
      else cell.Single? && (Unset(f, cell) || CanEncodeValue(f, cell.v))
    case Repeated => cell.Arr? && |cell.vs| <= f.arraySize && forall j :: 0 <= j < |cell.vs| ==> CanEncodeValue(f, cell.vs[j])
    case OneOf => cell.Union? && (cell.which == f.tag ==> CanEncodeValue(f, cell.u))
  }

  lemma ValueEncodes(f: Field, v: Value)
    ensures EncValue(f, v).Some? <==> CanEncodeValue(f, v)
    decreases f, 0
  {
    hide CanEncode, CString;
    if f.ltype.LSubmessage? && v.VMsg? && |v.m| == |f.ltype.fields| { FromEncodes(f.ltype.fields, v.m, 0); }
  }

  lemma ItemsEncode(f: Field, vs: seq<Value>)
    ensures EncItems(f, vs).Some? <==> forall j :: 0 <= j < |vs| ==> CanEncodeValue(f, vs[j])
    ensures EncPayload(f, vs).Some? <==> forall j :: 0 <= j < |vs| ==> CanEncodeValue(f, vs[j])
    decreases f, 1, |vs|
  {
    hide EncValue, CanEncodeValue, Key;
    if vs != [] {
      ValueEncodes(f, vs[0]);
      ItemsEncode(f, vs[1..]);
      assert forall j :: 1 <= j < |vs| ==> vs[j] == vs[1..][j - 1];
    }
  }

  lemma FieldEncodes(f: Field, cell: Cell)
    ensures EncField(f, cell).Some? <==> CanEncode(f, cell)
    decreases f, 2
  {
    hide EncItems, EncPayload, CanEncode, Items;
    ItemsCanEncode(f, cell);
    if Items(f, cell).Some? { ItemsEncode(f, Items(f, cell).value); }
  }

  lemma ItemsCanEncode(f: Field, cell: Cell)
    ensures CanEncode(f, cell) <==>
      Items(f, cell).Some? && forall j :: 0 <= j < |Items(f, cell).value| ==> CanEncodeValue(f, Items(f, cell).value[j])
  {
    hide CanEncodeValue, IsZero, Unset;
    UnsetIs(f, cell);
    if Items(f, cell).Some? && |Items(f, cell).value| == 1 {
      var v := Items(f, cell).value[0];
      assert CanEncodeValue(f, v) <==> forall j :: 0 <= j < 1 ==> CanEncodeValue(f, Items(f, cell).value[j]);
    }
  }

  lemma FromEncodes(fields: seq<Field>, m: Msg, i: nat)
    requires |m| == |fields| && i <= |fields|
    ensures EncFrom(fields, m, i).Some? <==> forall j :: i <= j < |fields| ==> CanEncode(fields[j], m[CellOf(fields, j)])
    decreases fields, |fields| - i
  {
    hide EncField, CanEncode, CellOf;
    if i < |fields| {
      FieldEncodes(fields[i], m[CellOf(fields, i)]);
      FromEncodes(fields, m, i + 1);
    }
  }

  /** pb_encode can encode a message just if each of its members is within its memory. */
  lemma EncodesExactly(fields: seq<Field>, m: Msg)
    ensures EncMsg(fields, m).Some? <==>
      |m| == |fields| && forall i :: 0 <= i < |fields| ==> CanEncode(fields[i], m[CellOf(fields, i)])
  {
    hide EncFrom, CanEncode, CellOf;
    if |m| == |fields| { FromEncodes(fields, m, 0); }
  }
}
