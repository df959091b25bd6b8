/** Decoding what was encoded. The encoder uses message type `big`; the decoder uses
    `small`, which has some of the fields of `big` (all of them, for the plain round
    trip). The decoder accepts exactly the messages characterised by `Accepts`, consumes
    every byte, and rebuilds the projection of the message. */
module PbRoundTrip {
  import opened Options
  import opened Bits
  import opened PbWire
  import opened PbSchema
  import opened PbEncodeSpec
  import opened PbDecodeSpec

  // ------------------------------------------------------ message types

  /** A descriptor table as the generator writes it: distinct tags that fit a key, sizes
      that fit pb_size_t, and every array with its count member. */
  predicate WellFormed(fields: seq<Field>)
  {
    && (forall i :: 0 <= i < |fields| ==> FieldOk(fields[i]))
    && (forall i, j :: 0 <= i < j < |fields| ==> fields[i].tag != fields[j].tag)
  }

  predicate FieldOk(f: Field)
  {
    && 0 < f.tag < TAG_LIMIT
    && f.dataSize <= PB_SIZE_MAX
    && (f.htype.Repeated? ==> f.sizeOffset != 0)
    && (f.ltype.LSubmessage? ==> WellFormed(f.ltype.fields))
  }

  /** The same field in both types; a submessage may have gained fields as well. */
  predicate SameField(g: Field, f: Field)
    decreases f
  {
    && g.tag == f.tag && g.htype == f.htype && HasFlag(g) == HasFlag(f)
    && g.dataSize == f.dataSize && g.arraySize == f.arraySize
    && (if f.ltype.LSubmessage? then g.ltype.LSubmessage? && Extends(g.ltype.fields, f.ltype.fields)
        else g.ltype == f.ltype)
  }

  /** `big` has the fields of `small`, and possibly more under other tags. */
  predicate Extends(big: seq<Field>, small: seq<Field>)
    decreases small
  {
    && (forall i :: 0 <= i < |small| ==>
          Find(big, small[i].tag) >= 0 && SameField(big[Find(big, small[i].tag)], small[i]))
    && (forall i, k :: 0 <= i < |small| && 0 <= k < |small| && CellOf(small, i) == CellOf(small, k) ==>
          CellOf(big, Find(big, small[i].tag)) == CellOf(big, Find(big, small[k].tag)))
  }

  lemma FindIs(fields: seq<Field>, i: nat)
    requires WellFormed(fields) && i < |fields|
    ensures Find(fields, fields[i].tag) == i
  {
    var j := Find(fields, fields[i].tag);
    assert fields[j].tag == fields[i].tag;
  }

  // ------------------------------------------------------ what is rebuilt

  /** A value of field `g` as field `f` of the smaller type sees it. */
  function Rebuilt(g: Field, f: Field, v: Value): Value
    decreases f, 0
  {
    if f.ltype.LSubmessage? && g.ltype.LSubmessage? && v.VMsg? then
      VMsg(Project(g.ltype.fields, f.ltype.fields, v.m))
    else if f.ltype.LString? && v.VBytes? then VBytes(CString(v.b, g.dataSize))
    else v
  }

  function RebuiltAll(g: Field, f: Field, vs: seq<Value>): (r: seq<Value>)
    ensures |r| == |vs|
    decreases f, 1, |vs|
  {
    if vs == [] then [] else [Rebuilt(g, f, vs[0])] + RebuiltAll(g, f, vs[1..])
  }

  function AbsorbAll(f: Field, cell: Cell, vs: seq<Value>): Cell
    decreases |vs|
  {
    if vs == [] then cell else AbsorbAll(f, Absorb(f, cell, vs[0]), vs[1..])
  }

  function ItemsOf(g: Field, cell: Cell): seq<Value>
  {
    var o := Items(g, cell);
    if o.Some? then o.value else []
  }

  /** The effect of field `g` of `big`, holding `cell`, on a message of type `small`. */
  function Step(small: seq<Field>, g: Field, cell: Cell, m: Msg): (m': Msg)
    requires |m| == |small|
    ensures |m'| == |small|
    decreases small, 0
  {
    var i := Find(small, g.tag);
    if i < 0 then m
    else
      var c := CellOf(small, i);
      m[c := AbsorbAll(small[i], m[c], RebuiltAll(g, small[i], ItemsOf(g, cell)))]
  }

  /** The effects of all fields of `big` from position `k` on. */
  function StepAll(big: seq<Field>, small: seq<Field>, src: Msg, k: nat, m: Msg): (m': Msg)
    requires |src| == |big| && |m| == |small| && k <= |big|
    ensures |m'| == |small|
    decreases small, 1, |big| - k
  {
    if k == |big| then m
    else StepAll(big, small, src, k + 1, Step(small, big[k], src[CellOf(big, k)], m))
  }

  function Project(big: seq<Field>, small: seq<Field>, src: Msg): Msg
    decreases small, 2
  {
    if |src| == |big| then StepAll(big, small, src, 0, Defaults(small)) else []
  }

  // ------------------------------------------------------ what is accepted

  /** Given that the encoder accepted the value: a string leaves room for its terminator,
      a submessage has a length that fits 32 bits and is itself accepted. */
  predicate ValueAccepted(g: Field, f: Field, v: Value)
    decreases f, 0
  {
    if f.ltype.LString? then v.VBytes? && |CString(v.b, g.dataSize)| < f.dataSize
    else if f.ltype.LSubmessage? && g.ltype.LSubmessage? then
      BlockFits(g, v) && Accepts(g.ltype.fields, f.ltype.fields, v.m)
    else true
  }

  predicate BlockFits(g: Field, v: Value)
  {
    g.ltype.LSubmessage? ==> v.VMsg? && EncMsg(g.ltype.fields, v.m).Some? && |EncMsg(g.ltype.fields, v.m).value| < M32
  }

  predicate ValuesAccepted(g: Field, f: Field, vs: seq<Value>)
    decreases f, 1, |vs|
  {
    vs == [] || (ValueAccepted(g, f, vs[0]) && ValuesAccepted(g, f, vs[1..]))
  }

  predicate BlocksFit(g: Field, vs: seq<Value>)
  {
    vs == [] || (BlockFits(g, vs[0]) && BlocksFit(g, vs[1..]))
  }

  predicate IsPacked(g: Field) { g.htype.Repeated? && Packable(g.ltype) }

  predicate PayloadFits(g: Field, vs: seq<Value>)
  {
    vs == [] || (EncPayload(g, vs).Some? && |EncPayload(g, vs).value| < M32)
  }

  /** What the decoder needs of one field: an unknown field must be skippable. */
  predicate FieldAccepted(small: seq<Field>, g: Field, cell: Cell)
    decreases small, 0
  {
    var i, vs := Find(small, g.tag), ItemsOf(g, cell);
    if IsPacked(g) then PayloadFits(g, vs)
    else if i < 0 then BlocksFit(g, vs)
    else ValuesAccepted(g, small[i], vs)
  }

  predicate AcceptsFrom(big: seq<Field>, small: seq<Field>, src: Msg, k: nat)
    requires |src| == |big| && k <= |big|
    decreases small, 1, |big| - k
  {
    k == |big| || (FieldAccepted(small, big[k], src[CellOf(big, k)]) && AcceptsFrom(big, small, src, k + 1))
  }

  predicate Accepts(big: seq<Field>, small: seq<Field>, src: Msg)
    decreases small, 2
  {
    |src| == |big| && AcceptsFrom(big, small, src, 0)
  }

  // ------------------------------------------------------ single values

  lemma IntRoundTrip(g: Field, f: Field, i: int, t: seq<byte>)
    requires g.ltype == f.ltype && g.dataSize == f.dataSize && IntFits(g, i)
    ensures DecInt(f, IntBytes(g, i) + t) == Ok(VInt(i), t)
  {
    hide Varint, ReadVarint, LittleEndian, FromLittleEndian, ZigZag, UnZigZag;
    match f.ltype
    case LFixed32 => FixedRoundTrip(i, 4, t);
    case LFixed64 => FixedRoundTrip(i, 8, t);
    case LSVarint =>
      ZigZagInverts(i);
      VarintInverts(ZigZag(i), t);
    case LUVarint =>
      VarintInverts(i, t);
    case LVarint =>
      VarintInverts(U64(i), t);
  }

  lemma FixedRoundTrip(i: nat, n: nat, t: seq<byte>)
    requires (n == 4 && i < M32) || (n == 8 && i < M64)
    ensures Take(LittleEndian(i, n) + t, n) == Ok(LittleEndian(i, n), t)
    ensures FromLittleEndian(LittleEndian(i, n)) == i
  {
    hide LittleEndian, FromLittleEndian;
    Pow256Values();
    LittleEndianInverts(i, n);
    assert (LittleEndian(i, n) + t)[..n] == LittleEndian(i, n);
    assert (LittleEndian(i, n) + t)[n..] == t;
  }

  /** A length-prefixed block comes back whole, if its length fits 32 bits. */
  lemma BlockRoundTrip(p: seq<byte>, t: seq<byte>)
    requires |p| < M63
    ensures ReadBlock(Varint(|p|) + p + t) == if |p| < M32 then Ok(p, t) else Err
  {
    hide Varint, ReadVarint32;
    var n, pt := |p|, p + t;
    assert Varint(n) + p + t == Varint(n) + pt;
    Varint32OnInt32(n, pt);
    assert pt[..n] == p && pt[n..] == t;
  }

  lemma BlobRoundTrip(g: Field, f: Field, v: Value, e: seq<byte>, t: seq<byte>)
    requires g.ltype == f.ltype && g.dataSize == f.dataSize <= PB_SIZE_MAX
    requires g.ltype.LBytes? || g.ltype.LString? || g.ltype.LFixedLengthBytes?
    requires EncValue(g, v) == Some(e)
    ensures DecBlob(f, e + t) == if ValueAccepted(g, f, v) then Ok(Rebuilt(g, f, v), t) else Err
  {
    hide Varint, ReadBlock, CString;
    var p := if g.ltype.LString? then CString(v.b, g.dataSize) else v.b;
    BlockRoundTrip(p, t);
    if f.ltype.LFixedLengthBytes? && p == [] {
      assert seq(f.dataSize, _ => 0) == v.b;
    }
  }

  // ------------------------------------------------------ skipping unknown fields

  lemma {:induction false} SkipVarintRoundTrip(v: nat, t: seq<byte>)
    ensures SkipVarint(Varint(v) + t) == Ok((), t)
    decreases v
  {
    hide Varint;
    VarintUncons(v, t);
    if v >= 128 { SkipVarintRoundTrip(v / 128, t); }
  }

  /** pb_skip_field consumes exactly one value of every type the encoder emits. */
  lemma SkipRoundTrip(g: Field, v: Value, e: seq<byte>, t: seq<byte>)
    requires FieldOk(g) && EncValue(g, v) == Some(e) && |e| < M63
    ensures Skip(WireTypeOf(g.ltype), e + t) == if BlockFits(g, v) then Ok((), t) else Err
  {
    if Packable(g.ltype) {
      SkipIntRoundTrip(g, v.i, t);
    } else {
      hide ReadBlock, Varint, CString, EncMsg, WellFormed;
      var p := if g.ltype.LString? then CString(v.b, g.dataSize)
               else if g.ltype.LSubmessage? then EncMsg(g.ltype.fields, v.m).value else v.b;
      BlockRoundTrip(p, t);
    }
  }

  lemma SkipIntRoundTrip(g: Field, i: int, t: seq<byte>)
    requires Packable(g.ltype) && IntFits(g, i)
    ensures Skip(WireTypeOf(g.ltype), IntBytes(g, i) + t) == Ok((), t)
  {
    hide Varint, LittleEndian, FromLittleEndian, SkipVarint, ZigZag;
    if g.ltype.LFixed32? {
      FixedRoundTrip(i, 4, t);
    } else if g.ltype.LFixed64? {
      FixedRoundTrip(i, 8, t);
    } else if g.ltype.LSVarint? {
      ZigZagInverts(i);
      SkipVarintRoundTrip(ZigZag(i), t);
    } else {
      SkipVarintRoundTrip(U64(i), t);
    }
  }

  // ------------------------------------------------------ packed arrays

  lemma {:induction false} PackedRoundTrip(g: Field, f: Field, acc: seq<Value>, vs: seq<Value>, e: seq<byte>)
    requires SameField(g, f) && Packable(g.ltype) && EncPayload(g, vs) == Some(e)
    requires |acc| + |vs| <= f.arraySize
    ensures DecPacked(f, acc, e) == Ok(acc + vs, [])
    decreases |vs|
  {
    hide DecInt, IntBytes;
    if vs == [] {
      assert acc + vs == acc;
    } else {
      var i := vs[0].i;
      var rest := EncPayload(g, vs[1..]).value;
      IntRoundTrip(g, f, i, rest);
      assert IntBytes(g, i) != [] by { IntBytesNonEmpty(g, i); }
      PackedRoundTrip(g, f, acc + [vs[0]], vs[1..], rest);
      assert acc + [vs[0]] + vs[1..] == acc + vs;
    }
  }

  lemma IntBytesNonEmpty(g: Field, i: int)
    requires IntFits(g, i)
    ensures |IntBytes(g, i)| >= 1
  {
    hide Varint, LittleEndian;
  }

  lemma {:induction false} RebuiltInts(g: Field, f: Field, vs: seq<Value>)
    requires SameField(g, f) && Packable(g.ltype)
    ensures RebuiltAll(g, f, vs) == vs
    decreases |vs|
  {
    if vs != [] { RebuiltInts(g, f, vs[1..]); }
  }

  lemma {:induction false} AbsorbArray(f: Field, acc: seq<Value>, vs: seq<Value>)
    requires f.htype.Repeated?
    ensures AbsorbAll(f, Arr(acc), vs) == Arr(acc + vs)
    decreases |vs|
  {
    if vs == [] {
      assert acc + vs == acc;
    } else {
      AbsorbArray(f, acc + [vs[0]], vs[1..]);
      assert acc + [vs[0]] + vs[1..] == acc + vs;
    }
  }

  // ------------------------------------------------------ fields under their keys

  /** The cell can take `n` more values of field `f`. */
  predicate Ready(f: Field, cell: Cell, n: nat)
  {
    n == 0 ||
    match f.htype
    case Required => cell.Single? && cell.v == InitialValue(f) && n == 1
    case Optional => (if HasFlag(f) then cell.Opt? else cell.Single?) && cell.v == InitialValue(f) && n == 1
    case Repeated => cell.Arr? && |cell.vs| + n <= f.arraySize
    case OneOf => cell.Union? && n == 1
  }

  /** A key sends the loop to the field with that tag. */
  lemma LoopAtKey(small: seq<Field>, tag: nat, wt: WireType, s: seq<byte>, m: Msg, seen: set<nat>)
    requires 0 < tag < TAG_LIMIT
    ensures DecLoop(small, Key(tag, wt) + s, m, seen) == DecField(small, tag, wt, s, m, seen)
  {
    hide Key, ReadKey, DecField;
    KeyInverts(tag, wt, s);
  }

  lemma ValueRoundTrip(g: Field, f: Field, v: Value, e: seq<byte>, t: seq<byte>)
    requires SameField(g, f) && FieldOk(g) && FieldOk(f)
    requires EncValue(g, v) == Some(e) && |e| < M63
    ensures DecValue(f, InitialValue(f), e + t) == if ValueAccepted(g, f, v) then Ok(Rebuilt(g, f, v), t) else Err
    decreases f, 0
  {
    if f.ltype.LSubmessage? {
      var gs, fs := g.ltype.fields, f.ltype.fields;
      SubmessageRoundTrip(gs, fs, v, e, t);
    } else if Packable(f.ltype) {
      hide IntBytes, DecInt;
      IntRoundTrip(g, f, v.i, t);
    } else {
      hide DecBlob;
      BlobRoundTrip(g, f, v, e, t);
    }
  }

  lemma SubmessageRoundTrip(gs: seq<Field>, fs: seq<Field>, v: Value, e: seq<byte>, t: seq<byte>)
    requires WellFormed(gs) && WellFormed(fs) && Extends(gs, fs)
    requires v.VMsg? && LenPrefixed(EncMsg(gs, v.m)) == Some(e) && |e| < M63
    ensures ReadBlock(e + t) ==
      var p := EncMsg(gs, v.m).value; if |p| < M32 then Ok(p, t) else Err
    ensures var p := EncMsg(gs, v.m).value;
      DecNoInit(fs, p, Defaults(fs)) == if Accepts(gs, fs, v.m) then Ok(Project(gs, fs, v.m), []) else Err
    decreases fs, 5
  {
    hide ReadBlock, Varint, WellFormed, Extends, EncMsg, DecNoInit, Accepts, Project;
    var p := EncMsg(gs, v.m).value;
    BlockRoundTrip(p, t);
    MsgRoundTrip(gs, fs, v.m, p);
  }

  lemma ItemRoundTrip(small: seq<Field>, g: Field, v: Value, e: seq<byte>, t: seq<byte>, m: Msg, seen: set<nat>)
    requires WellFormed(small) && FieldOk(g) && |m| == |small| && !IsPacked(g)
    requires Find(small, g.tag) >= 0 && SameField(g, small[Find(small, g.tag)])
    requires EncValue(g, v) == Some(e) && |e| < M63
    requires var i := Find(small, g.tag); Ready(small[i], m[CellOf(small, i)], 1)
    ensures var i := Find(small, g.tag); var f, c := small[i], CellOf(small, i);
      DecLoop(small, Key(g.tag, WireTypeOf(g.ltype)) + (e + t), m, seen) ==
        if ValueAccepted(g, f, v) then
          DecLoop(small, t, m[c := Absorb(f, m[c], Rebuilt(g, f, v))], Mark(small, i, seen))
        else Fail
    decreases small, 0
  {
    hide Key, ReadKey, DecLoop, EncValue, ValueAccepted, Rebuilt, Mark, CellOf;
    var i := Find(small, g.tag);
    var f := small[i];
    LoopAtKey(small, g.tag, WireTypeOf(g.ltype), e + t, m, seen);
    ValueRoundTrip(g, f, v, e, t);
    hide DecValue;
  }

  lemma Concat3(k: seq<byte>, e: seq<byte>, r: seq<byte>, t: seq<byte>)
    ensures k + e + r + t == k + (e + (r + t))
  {}

  lemma UpdateTwice(m: Msg, c: nat, x: Cell, y: Cell)
    requires c < |m|
    ensures m[c := x][c := y] == m[c := y]
  {}

  /** A field's values under their keys: each is absorbed in turn. */
  lemma {:induction false} ItemsRoundTrip(small: seq<Field>, g: Field, vs: seq<Value>, e: seq<byte>, t: seq<byte>, m: Msg, seen: set<nat>)
    requires WellFormed(small) && FieldOk(g) && |m| == |small| && !IsPacked(g)
    requires Find(small, g.tag) >= 0 && SameField(g, small[Find(small, g.tag)])
    requires EncItems(g, vs) == Some(e) && |e| < M63
    requires var i := Find(small, g.tag); Ready(small[i], m[CellOf(small, i)], |vs|)
    ensures var i := Find(small, g.tag); var f, c := small[i], CellOf(small, i);
      DecLoop(small, e + t, m, seen) ==
        if ValuesAccepted(g, f, vs) then
          DecLoop(small, t, m[c := AbsorbAll(f, m[c], RebuiltAll(g, f, vs))],
                  if vs == [] then seen else Mark(small, i, seen))
        else Fail
    decreases small, 1, |vs|
  {
    hide DecLoop, Key, EncValue, ValueAccepted, Rebuilt, Mark, CellOf, WellFormed, FieldOk, SameField, Find;
    var i := Find(small, g.tag);
    var f, c := small[i], CellOf(small, i);
    if vs == [] {
      assert e + t == t;
      assert m[c := m[c]] == m;
    } else {
      var key, ev, er := Key(g.tag, WireTypeOf(g.ltype)), EncValue(g, vs[0]).value, EncItems(g, vs[1..]).value;
      Concat3(key, ev, er, t);
      ReadyOne(f, m[c], |vs|);
      ItemRoundTrip(small, g, vs[0], ev, er + t, m, seen);
      if ValueAccepted(g, f, vs[0]) {
        var cell := Absorb(f, m[c], Rebuilt(g, f, vs[0]));
        ReadyNext(f, m[c], Rebuilt(g, f, vs[0]), |vs|);
        ItemsRoundTrip(small, g, vs[1..], er, t, m[c := cell], Mark(small, i, seen));
        UpdateTwice(m, c, cell, AbsorbAll(f, cell, RebuiltAll(g, f, vs[1..])));
        MarkTwice(small, i, seen);
      }
    }
  }

  lemma ReadyOne(f: Field, cell: Cell, n: nat)
    requires n >= 1 && Ready(f, cell, n)
    ensures Ready(f, cell, 1)
  {}

  lemma ReadyNext(f: Field, cell: Cell, v: Value, n: nat)
    requires n >= 1 && Ready(f, cell, n)
    ensures Ready(f, Absorb(f, cell, v), n - 1)
  {}

  lemma MarkTwice(small: seq<Field>, i: nat, seen: set<nat>)
    requires i < |small|
    ensures Mark(small, i, Mark(small, i, seen)) == Mark(small, i, seen)
  {}

  /** The values of a field the decoder does not know are skipped. */
  lemma {:induction false} UnknownItems(small: seq<Field>, g: Field, vs: seq<Value>, e: seq<byte>, t: seq<byte>, m: Msg, seen: set<nat>)
    requires FieldOk(g) && Find(small, g.tag) < 0
    requires EncItems(g, vs) == Some(e) && |e| < M63
    ensures DecLoop(small, e + t, m, seen) == if BlocksFit(g, vs) then DecLoop(small, t, m, seen) else Fail
    decreases |vs|
  {
    hide DecLoop, Key, EncValue, BlockFits, Find, Skip;
    if vs == [] {
      assert e + t == t;
    } else {
      var key, ev, er := Key(g.tag, WireTypeOf(g.ltype)), EncValue(g, vs[0]).value, EncItems(g, vs[1..]).value;
      Concat3(key, ev, er, t);
      LoopAtKey(small, g.tag, WireTypeOf(g.ltype), ev + (er + t), m, seen);
      SkipRoundTrip(g, vs[0], ev, er + t);
      if BlockFits(g, vs[0]) {
        UnknownItems(small, g, vs[1..], er, t, m, seen);
      }
    }
  }

  /** A packed array, known to the decoder or not. */
  lemma PackedField(small: seq<Field>, g: Field, vs: seq<Value>, e: seq<byte>, t: seq<byte>, m: Msg, seen: set<nat>)
    requires FieldOk(g) && |m| == |small| && IsPacked(g) && vs != []
    requires EncPacked(g, vs) == Some(e) && |e| < M63
    requires var i := Find(small, g.tag); i >= 0 ==> SameField(g, small[i]) && Ready(small[i], m[CellOf(small, i)], |vs|)
    ensures var i := Find(small, g.tag);
      DecLoop(small, e + t, m, seen) ==
        if !PayloadFits(g, vs) then Fail
        else if i < 0 then DecLoop(small, t, m, seen)
        else var c := CellOf(small, i);
          DecLoop(small, t, m[c := AbsorbAll(small[i], m[c], RebuiltAll(g, small[i], vs))], Mark(small, i, seen))
  {
    hide Key, DecLoop, EncPayload, CellOf, Mark, Varint, DecPacked, ReadBlock, Find;
    var i := Find(small, g.tag);
    var p := EncPayload(g, vs).value;
    var key, lp := Key(g.tag, WT_STRING), Varint(|p|) + p;
    assert e + t == key + (lp + t);
    LoopAtKey(small, g.tag, WT_STRING, lp + t, m, seen);
    BlockRoundTrip(p, t);
    if i >= 0 {
      var f, c := small[i], CellOf(small, i);
      PackedRoundTrip(g, f, m[c].vs, vs, p);
      RebuiltInts(g, f, vs);
      AbsorbArray(f, m[c].vs, vs);
    }
  }

  function StepSeen(small: seq<Field>, g: Field, cell: Cell, seen: set<nat>): set<nat>
  {
    var i := Find(small, g.tag);
    if i < 0 || ItemsOf(g, cell) == [] then seen else Mark(small, i, seen)
  }

  /** The decoder can absorb the values of field `g` at this point. */
  predicate FieldReady(small: seq<Field>, g: Field, cell: Cell, m: Msg)
    requires |m| == |small|
  {
    var i := Find(small, g.tag);
    i >= 0 ==> SameField(g, small[i]) && Ready(small[i], m[CellOf(small, i)], |ItemsOf(g, cell)|)
  }

  /** One encoded field does exactly what `Step` says. */
  lemma FieldRoundTrip(small: seq<Field>, g: Field, cell: Cell, e: seq<byte>, t: seq<byte>, m: Msg, seen: set<nat>)
    requires WellFormed(small) && FieldOk(g) && |m| == |small|
    requires EncField(g, cell) == Some(e) && |e| < M63
    requires FieldReady(small, g, cell, m)
    ensures DecLoop(small, e + t, m, seen) ==
      if FieldAccepted(small, g, cell) then DecLoop(small, t, Step(small, g, cell, m), StepSeen(small, g, cell, seen))
      else Fail
    decreases small, 2
  {
    hide DecLoop, EncItems, EncPacked, CellOf, Mark, Find, Items, FieldOk, WellFormed, SameField, Ready, AbsorbAll, RebuiltAll, PayloadFits;
    var vs := ItemsOf(g, cell);
    var i := Find(small, g.tag);
    if IsPacked(g) && vs != [] {
      PackedField(small, g, vs, e, t, m, seen);
    } else if IsPacked(g) {
      EmptyField(small, g, cell, e, t, m);
    } else if i < 0 {
      UnknownItems(small, g, vs, e, t, m, seen);
    } else {
      ItemsRoundTrip(small, g, vs, e, t, m, seen);
    }
  }

  lemma EmptyField(small: seq<Field>, g: Field, cell: Cell, e: seq<byte>, t: seq<byte>, m: Msg)
    requires |m| == |small|
    requires EncField(g, cell) == Some(e) && ItemsOf(g, cell) == [] && IsPacked(g)
    ensures e + t == t && Step(small, g, cell, m) == m && PayloadFits(g, [])
  {
    hide Find, CellOf, Items;
    assert e == [];
  }

  // ------------------------------------------------------ whole messages

  predicate AllReady(big: seq<Field>, small: seq<Field>, src: Msg, k: nat, m: Msg)
    requires |src| == |big| && |m| == |small|
  {
    forall j :: k <= j < |big| ==> FieldReady(small, big[j], src[CellOf(big, j)], m)
  }

  /** Two fields of one type use one cell only if both belong to a union. */
  lemma CellsApart(fields: seq<Field>, i: nat, k: nat)
    requires i < |fields| && k < |fields| && i != k && CellOf(fields, i) == CellOf(fields, k)
    ensures fields[i].htype.OneOf? && fields[k].htype.OneOf?
  {
    CellOfProperties(fields, i);
    CellOfProperties(fields, k);
  }

  lemma {:induction false} AbsorbAllUnion(f: Field, cell: Cell, vs: seq<Value>)
    requires f.htype.OneOf? && cell.Union?
    ensures AbsorbAll(f, cell, vs).Union?
    decreases |vs|
  {
    if vs != [] { AbsorbAllUnion(f, Absorb(f, cell, vs[0]), vs[1..]); }
  }

  lemma StepKeepsReady(small: seq<Field>, g: Field, cell: Cell, h: Field, cellh: Cell, m: Msg)
    requires |m| == |small| && g.tag != h.tag && FieldReady(small, h, cellh, m)
    ensures FieldReady(small, h, cellh, Step(small, g, cell, m))
  {
    hide CellOf, RebuiltAll, Items, AbsorbAll, SameField;
    var i, k := Find(small, g.tag), Find(small, h.tag);
    if i >= 0 && k >= 0 && CellOf(small, i) == CellOf(small, k) {
      CellsApart(small, i, k);
      var c := CellOf(small, i);
      if ItemsOf(h, cellh) != [] {
        AbsorbAllUnion(small[i], m[c], RebuiltAll(g, small[i], ItemsOf(g, cell)));
      }
    }
  }

  lemma StepKeepsAllReady(big: seq<Field>, small: seq<Field>, src: Msg, k: nat, m: Msg)
    requires WellFormed(big) && |src| == |big| && |m| == |small| && k < |big|
    requires AllReady(big, small, src, k, m)
    ensures AllReady(big, small, src, k + 1, Step(small, big[k], src[CellOf(big, k)], m))
  {
    hide CellOf, FieldReady, Step, FieldOk;
    forall j | k + 1 <= j < |big|
      ensures FieldReady(small, big[j], src[CellOf(big, j)], Step(small, big[k], src[CellOf(big, k)], m))
    {
      StepKeepsReady(small, big[k], src[CellOf(big, k)], big[j], src[CellOf(big, j)], m);
    }
  }

  lemma ItemsReady(g: Field, f: Field, cell: Cell, dest: Cell)
    requires SameField(g, f) && (dest == InitialCellOf(f))
    ensures Ready(f, dest, |ItemsOf(g, cell)|)
  {
    hide InitialValue, IsZero, Extends;
  }

  /** The initial cell of a field that does not share an earlier one. */
  function InitialCellOf(f: Field): Cell
  {
    match f.htype
    case Required => Single(InitialValue(f))
    case Optional => if HasFlag(f) then Opt(false, InitialValue(f)) else Single(InitialValue(f))
    case Repeated => Arr([])
    case OneOf => Union(0, VInt(0))
  }

  lemma DefaultsAtCell(fields: seq<Field>, i: nat)
    requires i < |fields|
    ensures Defaults(fields)[CellOf(fields, i)] == InitialCellOf(fields[i])
  {
    hide InitialValue;
    CellOfProperties(fields, i);
  }

  lemma DefaultsReady(big: seq<Field>, small: seq<Field>, src: Msg)
    requires WellFormed(big) && WellFormed(small) && Extends(big, small) && |src| == |big|
    ensures AllReady(big, small, src, 0, Defaults(small))
  {
    hide CellOf, Ready, Defaults, FieldOk, SameField, InitialCellOf, Items;
    forall j | 0 <= j < |big|
      ensures FieldReady(small, big[j], src[CellOf(big, j)], Defaults(small))
    {
      var i := Find(small, big[j].tag);
      if i >= 0 {
        FindIs(big, j);
        DefaultsAtCell(small, i);
        ItemsReady(big[j], small[i], src[CellOf(big, j)], InitialCellOf(small[i]));
      }
    }
  }

  function SeenAll(big: seq<Field>, small: seq<Field>, src: Msg, k: nat, seen: set<nat>): set<nat>
    requires |src| == |big| && k <= |big|
    decreases |big| - k
  {
    if k == |big| then seen
    else SeenAll(big, small, src, k + 1, StepSeen(small, big[k], src[CellOf(big, k)], seen))
  }

  lemma {:induction false} LoopRoundTrip(big: seq<Field>, small: seq<Field>, src: Msg, k: nat, e: seq<byte>, m: Msg, seen: set<nat>)
    requires WellFormed(big) && WellFormed(small)
    requires |src| == |big| && |m| == |small| && k <= |big|
    requires EncFrom(big, src, k) == Some(e) && |e| < M63
    requires AllReady(big, small, src, k, m)
    ensures DecLoop(small, e, m, seen) ==
      if AcceptsFrom(big, small, src, k) then
        Done(StepAll(big, small, src, k, m), SeenAll(big, small, src, k, seen), [], false)
      else Fail
    decreases small, 3, |big| - k
  {
    if k < |big| {
      hide DecLoop, CellOf, EncField, FieldAccepted, Step, StepSeen, FieldReady, FieldOk;
      var g, cell := big[k], src[CellOf(big, k)];
      var e0, e1 := EncField(g, cell).value, EncFrom(big, src, k + 1).value;
      FieldRoundTrip(small, g, cell, e0, e1, m, seen);
      if FieldAccepted(small, g, cell) {
        StepKeepsAllReady(big, small, src, k, m);
        hide AllReady, WellFormed;
        LoopRoundTrip(big, small, src, k + 1, e1, Step(small, g, cell, m), StepSeen(small, g, cell, seen));
      }
    }
  }

  // ------------------------------------------------------ required fields

  /** Each required index belongs to a required field. */
  lemma {:induction false} RequiredAt(fields: seq<Field>, n: nat, k: nat) returns (i: nat)
    requires n <= |fields| && k < RequiredBefore(fields, n)
    ensures i < n && fields[i].htype.Required? && RequiredBefore(fields, i) == k
    decreases n
  {
    if fields[n - 1].htype.Required? && RequiredBefore(fields, n - 1) == k {
      i := n - 1;
    } else {
      i := RequiredAt(fields, n - 1, k);
    }
  }

  lemma {:induction false} SeenGrows(big: seq<Field>, small: seq<Field>, src: Msg, k: nat, seen: set<nat>)
    requires |src| == |big| && k <= |big|
    ensures seen <= SeenAll(big, small, src, k, seen)
    decreases |big| - k
  {
    hide CellOf, Find, Items, RequiredBefore;
    if k < |big| {
      SeenGrows(big, small, src, k + 1, StepSeen(small, big[k], src[CellOf(big, k)], seen));
    }
  }

  /** A required field of `big` at or after `k` has been seen at the end. */
  lemma {:induction false} SeenRequired(big: seq<Field>, small: seq<Field>, src: Msg, k: nat, j: nat, seen: set<nat>)
    requires |src| == |big| && k <= j < |big| && big[j].htype.Required?
    requires EncFrom(big, src, k).Some?
    requires var i := Find(small, big[j].tag);
      i >= 0 && small[i].htype.Required? && RequiredBefore(small, i) < PB_MAX_REQUIRED_FIELDS
    ensures RequiredBefore(small, Find(small, big[j].tag)) in SeenAll(big, small, src, k, seen)
    decreases |big| - k
  {
    hide CellOf, Find, RequiredBefore, EncItems, EncPacked;
    var next := StepSeen(small, big[k], src[CellOf(big, k)], seen);
    if k == j {
      SeenGrows(big, small, src, k + 1, next);
    } else {
      SeenRequired(big, small, src, k + 1, j, next);
    }
  }

  lemma RequiredSeen(big: seq<Field>, small: seq<Field>, src: Msg)
    requires WellFormed(small) && Extends(big, small)
    requires |src| == |big| && EncFrom(big, src, 0).Some?
    ensures AllRequired(small, SeenAll(big, small, src, 0, {}))
  {
    hide CellOf, RequiredBefore, EncFrom, SeenAll, FieldOk;
    forall r: nat | r < RequiredBefore(small, |small|) && r < PB_MAX_REQUIRED_FIELDS
      ensures r in SeenAll(big, small, src, 0, {})
    {
      var i := RequiredAt(small, |small|, r);
      var j := Find(big, small[i].tag);
      FindIs(small, i);
      assert SameField(big[j], small[i]);
      SeenRequired(big, small, src, 0, j, {});
    }
  }

  /** Main theorem: pb_decode under `small` of what pb_encode wrote under `big` consumes
      every byte and rebuilds the projection exactly when the message is `Accepted`, and
      fails otherwise. (No C object is as long as 2^63 bytes.) */
  lemma MsgRoundTrip(big: seq<Field>, small: seq<Field>, src: Msg, e: seq<byte>)
    requires WellFormed(big) && WellFormed(small) && Extends(big, small)
    requires EncMsg(big, src) == Some(e) && |e| < M63
    ensures DecNoInit(small, e, Defaults(small)) ==
      if Accepts(big, small, src) then Ok(Project(big, small, src), []) else Err
    decreases small, 4
  {
    hide DecLoop, EncFrom, StepAll, SeenAll, AcceptsFrom, Defaults, WellFormed, Extends, AllRequired, AllReady;
    DefaultsReady(big, small, src);
    LoopRoundTrip(big, small, src, 0, e, Defaults(small), {});
    RequiredSeen(big, small, src);
  }
}
