/** Decoding arbitrary bytes: concatenation of inputs is merging of messages, packed and
    unpacked entries of an array can be mixed, and whatever arrives, the destination stays
    within the memory its descriptors give it. */
module PbMerge {
  import opened Options
  import opened Bits
  import opened PbWire
  import opened PbSchema
  import opened PbEncodeSpec
  import opened PbDecodeSpec
  import opened PbRoundTrip

  // ------------------------------------------------------ only consumed bytes matter

  lemma TakePrefix(s: seq<byte>, t: seq<byte>, n: nat)
    requires Take(s, n).Ok?
    ensures Take(s + t, n) == Ok(Take(s, n).val, Take(s, n).rest + t)
  {
    assert (s + t)[..n] == s[..n];
    assert (s + t)[n..] == s[n..] + t;
  }

  lemma ReadBlockPrefix(s: seq<byte>, t: seq<byte>)
    requires ReadBlock(s).Ok?
    ensures ReadBlock(s + t) == Ok(ReadBlock(s).val, ReadBlock(s).rest + t)
  {
    hide ReadVarint32, Take;
    ReadVarint32Prefix(s, t);
    TakePrefix(ReadVarint32(s).rest, t, ReadVarint32(s).val);
  }

  lemma {:induction false} SkipVarintPrefix(s: seq<byte>, t: seq<byte>)
    requires SkipVarint(s).Ok?
    ensures SkipVarint(s + t) == Ok((), SkipVarint(s).rest + t)
  {
    assert (s + t)[1..] == s[1..] + t;
    if s[0] >= 128 { SkipVarintPrefix(s[1..], t); }
  }

  lemma SkipPrefix(wt: WireType, s: seq<byte>, t: seq<byte>)
    requires Skip(wt, s).Ok?
    ensures Skip(wt, s + t) == Ok((), Skip(wt, s).rest + t)
  {
    hide SkipVarint, ReadBlock, Take;
    if wt == WT_VARINT { SkipVarintPrefix(s, t); }
    else if wt == WT_64BIT { TakePrefix(s, t, 8); }
    else if wt == WT_STRING { ReadBlockPrefix(s, t); }
    else { TakePrefix(s, t, 4); }
  }

  lemma ReadKeyPrefix(s: seq<byte>, t: seq<byte>)
    requires ReadKey(s).KeyOk?
    ensures var k := ReadKey(s); ReadKey(s + t) == KeyOk(k.tag, k.wt, k.rest + t)
  {
    hide ReadVarint32;
    ReadVarint32Prefix(s, t);
  }

  lemma DecIntPrefix(f: Field, s: seq<byte>, t: seq<byte>)
    requires DecInt(f, s).Ok?
    ensures DecInt(f, s + t) == Ok(DecInt(f, s).val, DecInt(f, s).rest + t)
  {
    hide ReadVarint, Take, FromLittleEndian, IntOfPattern;
    if f.ltype.LFixed32? || f.ltype.LFixed64? {
      TakePrefix(s, t, if f.ltype.LFixed32? then 4 else 8);
    } else {
      ReadVarintPrefix(s, t);
    }
  }

  lemma DecValuePrefix(f: Field, prior: Value, s: seq<byte>, t: seq<byte>)
    requires DecValue(f, prior, s).Ok?
    ensures DecValue(f, prior, s + t) == Ok(DecValue(f, prior, s).val, DecValue(f, prior, s).rest + t)
  {
    hide ReadBlock, DecInt, DecNoInit, BlobSizeOk;
    if Packable(f.ltype) {
      DecIntPrefix(f, s, t);
    } else {
      ReadBlockPrefix(s, t);
    }
  }

  lemma DecCellPrefix(f: Field, wt: WireType, s: seq<byte>, cell: Cell, t: seq<byte>)
    requires DecCell(f, wt, s, cell).Ok?
    ensures DecCell(f, wt, s + t, cell) == Ok(DecCell(f, wt, s, cell).val, DecCell(f, wt, s, cell).rest + t)
  {
    hide ReadBlock, DecValue, DecPacked, Absorb, InitialValue;
    if IsPackedChunk(f, wt) {
      ReadBlockPrefix(s, t);
    } else {
      DecValuePrefix(f, Destination(f, cell).val, s, t);
    }
  }

  // ------------------------------------------------------ concatenation is merging

  /** The loop over `a ++ b` is the loop over `a` and then the loop over `b`. */
  lemma {:induction false} LoopConcat(fields: seq<Field>, a: seq<byte>, b: seq<byte>, m: Msg, seen: set<nat>)
    requires DecLoop(fields, a, m, seen).Done? && !DecLoop(fields, a, m, seen).zeroKey
    ensures var o := DecLoop(fields, a, m, seen);
      DecLoop(fields, a + b, m, seen) == DecLoop(fields, b, o.m, o.seen)
    decreases |a|
  {
    if a == [] {
      assert a + b == b;
    } else {
      hide ReadKey, DecCell, Skip, Find, CellOf, Mark;
      ReadKeyPrefix(a, b);
      var k := ReadKey(a);
      var i := Find(fields, k.tag);
      if i < 0 {
        SkipPrefix(k.wt, k.rest, b);
        LoopConcat(fields, Skip(k.wt, k.rest).rest, b, m, seen);
      } else {
        var c := CellOf(fields, i);
        var p := DecCell(fields[i], k.wt, k.rest, m[c]);
        DecCellPrefix(fields[i], k.wt, k.rest, m[c], b);
        LoopConcat(fields, p.rest, b, m[c := p.val], Mark(fields, i, seen));
      }
    }
  }

  function WithSeen(o: Outcome, more: set<nat>): Outcome
  {
    match o case Fail => Fail case Done(m, seen, rest, z) => Done(m, seen + more, rest, z)
  }

  /** What has been seen before changes nothing but what has been seen after. */
  lemma {:induction false} LoopSeen(fields: seq<Field>, s: seq<byte>, m: Msg, seen: set<nat>, more: set<nat>)
    ensures DecLoop(fields, s, m, seen + more) == WithSeen(DecLoop(fields, s, m, seen), more)
    decreases |s|
  {
    if s != [] && ReadKey(s).KeyOk? {
      hide ReadKey, DecCell, Skip, Find, CellOf, RequiredBefore;
      var k := ReadKey(s);
      var i := Find(fields, k.tag);
      if i < 0 {
        if Skip(k.wt, k.rest).Ok? { LoopSeen(fields, Skip(k.wt, k.rest).rest, m, seen, more); }
      } else if |m| == |fields| {
        var c := CellOf(fields, i);
        var p := DecCell(fields[i], k.wt, k.rest, m[c]);
        assert Mark(fields, i, seen + more) == Mark(fields, i, seen) + more;
        if p.Ok? { LoopSeen(fields, p.rest, m[c := p.val], Mark(fields, i, seen), more); }
      }
    }
  }

  /** pb_decode_noinit of two inputs joined: decode the first, then the second into the
      result; the required fields may come from either. */
  lemma ConcatIsMerge(fields: seq<Field>, a: seq<byte>, b: seq<byte>, m: Msg)
    requires DecLoop(fields, a, m, {}).Done? && !DecLoop(fields, a, m, {}).zeroKey
    ensures var first := DecLoop(fields, a, m, {});
      var second := DecLoop(fields, b, first.m, {});
      DecNoInit(fields, a + b, m) ==
        if second.Done? && AllRequired(fields, first.seen + second.seen) then Ok(second.m, second.rest) else Err
  {
    hide DecLoop, AllRequired;
    LoopConcat(fields, a, b, m, {});
    var first := DecLoop(fields, a, m, {});
    LoopSeen(fields, b, first.m, {}, first.seen);
    assert {} + first.seen == first.seen;
    var second := DecLoop(fields, b, first.m, {});
    if second.Done? { assert second.seen + first.seen == first.seen + second.seen; }
  }

  /** If both decodings succeed one after the other, so does the joint one, with the same
      message (last value wins, repeated fields append). */
  lemma SuccessiveDecodesMerge(fields: seq<Field>, a: seq<byte>, b: seq<byte>, m: Msg)
    requires !DecLoop(fields, a, m, {}).Fail? && !DecLoop(fields, a, m, {}).zeroKey
    requires DecNoInit(fields, a, m).Ok?
    requires DecNoInit(fields, b, DecNoInit(fields, a, m).val).Ok?
    ensures DecNoInit(fields, a + b, m) == DecNoInit(fields, b, DecNoInit(fields, a, m).val)
  {
    hide DecLoop;
    ConcatIsMerge(fields, a, b, m);
  }

  // ------------------------------------------------------ packed and unpacked entries mixed

  /** Entries of a packable array as they may arrive: a packed block, or one under its own key. */
  datatype Chunk = Packed(vs: seq<Value>) | Unpacked(v: Value)

  function ChunkValues(c: Chunk): seq<Value> { match c case Packed(vs) => vs case Unpacked(v) => [v] }

  function ChunkBytes(f: Field, c: Chunk): Option<seq<byte>>
  {
    match c
    case Packed(vs) => Cat(Some(Key(f.tag, WT_STRING)), LenPrefixed(EncPayload(f, vs)))
    case Unpacked(v) => Cat(Some(Key(f.tag, WireTypeOf(f.ltype))), EncValue(f, v))
  }

  function AllValues(cs: seq<Chunk>): seq<Value>
  {
    if cs == [] then [] else ChunkValues(cs[0]) + AllValues(cs[1..])
  }

  function AllBytes(f: Field, cs: seq<Chunk>): Option<seq<byte>>
  {
    if cs == [] then Some([]) else Cat(ChunkBytes(f, cs[0]), AllBytes(f, cs[1..]))
  }

  /** A packed block appends its values, unless the array would overflow. */
  lemma {:induction false} PackedExactly(f: Field, acc: seq<Value>, vs: seq<Value>, e: seq<byte>)
    requires Packable(f.ltype) && EncPayload(f, vs) == Some(e) && |acc| <= f.arraySize
    ensures DecPacked(f, acc, e) == if |acc| + |vs| <= f.arraySize then Ok(acc + vs, []) else Err
    decreases |vs|
  {
    hide DecInt, IntBytes;
    if vs == [] {
      assert acc + vs == acc;
    } else {
      var i := vs[0].i;
      var rest := EncPayload(f, vs[1..]).value;
      IntRoundTrip(f, f, i, rest);
      IntBytesNonEmpty(f, i);
      if |acc| < f.arraySize {
        PackedExactly(f, acc + [vs[0]], vs[1..], rest);
        assert acc + [vs[0]] + vs[1..] == acc + vs;
      }
    }
  }

  predicate ArrayReady(fields: seq<Field>, i: nat, m: Msg)
  {
    && WellFormed(fields) && |m| == |fields| && i < |fields| && IsPacked(fields[i])
    && m[i].Arr? && |m[i].vs| <= fields[i].arraySize
  }

  lemma ChunkDecoded(fields: seq<Field>, i: nat, c: Chunk, e: seq<byte>, t: seq<byte>, m: Msg, seen: set<nat>)
    requires ArrayReady(fields, i, m)
    requires ChunkBytes(fields[i], c) == Some(e) && |e| < M32
    ensures var vs := m[i].vs + ChunkValues(c);
      DecLoop(fields, e + t, m, seen) ==
        if |vs| <= fields[i].arraySize then DecLoop(fields, t, m[i := Arr(vs)], seen) else Fail
  {
    var f := fields[i];
    hide DecLoop, WellFormed, EncPayload, EncValue, Varint, Key, DecCell;
    match c
    case Packed(vs) =>
      var p := EncPayload(f, vs).value;
      var key, lp := Key(f.tag, WT_STRING), Varint(|p|) + p;
      Concat2(key, lp, t);
      ArrayAtKey(fields, i, WT_STRING, lp + t, m, seen);
      PackedChunkDecoded(f, vs, p, t, m[i]);
    case Unpacked(v) =>
      var key, ev := Key(f.tag, WireTypeOf(f.ltype)), EncValue(f, v).value;
      Concat2(key, ev, t);
      ArrayAtKey(fields, i, WireTypeOf(f.ltype), ev + t, m, seen);
      UnpackedChunkDecoded(f, v, ev, t, m[i]);
  }

  lemma Concat2(a: seq<byte>, b: seq<byte>, c: seq<byte>)
    ensures a + b + c == a + (b + c)
  {}

  lemma ArrayAtKey(fields: seq<Field>, i: nat, wt: WireType, s: seq<byte>, m: Msg, seen: set<nat>)
    requires ArrayReady(fields, i, m)
    ensures DecLoop(fields, Key(fields[i].tag, wt) + s, m, seen) ==
      match DecCell(fields[i], wt, s, m[i])
      case Err => Fail
      case Ok(cell, rest) => DecLoop(fields, rest, m[i := cell], seen)
  {
    FindIs(fields, i);
    CellOfProperties(fields, i);
    assert FieldOk(fields[i]);
    hide WellFormed, DecLoop, DecCell, Key, Find, CellOf;
    LoopAtKey(fields, fields[i].tag, wt, s, m, seen);
  }

  lemma PackedChunkDecoded(f: Field, vs: seq<Value>, p: seq<byte>, t: seq<byte>, cell: Cell)
    requires IsPacked(f) && cell.Arr? && |cell.vs| <= f.arraySize
    requires EncPayload(f, vs) == Some(p) && |p| < M32
    ensures DecCell(f, WT_STRING, Varint(|p|) + p + t, cell) ==
      if |cell.vs| + |vs| <= f.arraySize then Ok(Arr(cell.vs + vs), t) else Err
  {
    hide Varint, ReadBlock, DecPacked, EncPayload;
    BlockRoundTrip(p, t);
    PackedExactly(f, cell.vs, vs, p);
  }

  lemma UnpackedChunkDecoded(f: Field, v: Value, e: seq<byte>, t: seq<byte>, cell: Cell)
    requires IsPacked(f) && cell.Arr? && EncValue(f, v) == Some(e)
    ensures DecCell(f, WireTypeOf(f.ltype), e + t, cell) ==
      if |cell.vs| < f.arraySize then Ok(Arr(cell.vs + [v]), t) else Err
  {
    hide DecValue, EncValue, InitialValue;
    UnpackedDecoded(f, v, e, t);
  }

  lemma UnpackedDecoded(f: Field, v: Value, e: seq<byte>, t: seq<byte>)
    requires Packable(f.ltype) && EncValue(f, v) == Some(e)
    ensures DecValue(f, InitialValue(f), e + t) == Ok(v, t)
  {
    hide IntBytes, DecInt;
    IntRoundTrip(f, f, v.i, t);
  }

  /** However the entries of a counted array are split into packed and unpacked chunks, they
      end up in order in the array; the message is refused exactly when they do not fit. */
  lemma {:induction false} ChunksDecoded(fields: seq<Field>, i: nat, cs: seq<Chunk>, e: seq<byte>, t: seq<byte>, m: Msg, seen: set<nat>)
    requires ArrayReady(fields, i, m)
    requires AllBytes(fields[i], cs) == Some(e) && |e| < M32
    ensures var vs := m[i].vs + AllValues(cs);
      DecLoop(fields, e + t, m, seen) ==
        if |vs| <= fields[i].arraySize then DecLoop(fields, t, m[i := Arr(vs)], seen) else Fail
    decreases |cs|
  {
    hide DecLoop, WellFormed, ChunkBytes, ChunkValues;
    var f := fields[i];
    if cs == [] {
      assert e + t == t && m[i].vs + AllValues(cs) == m[i].vs;
      assert m[i := Arr(m[i].vs)] == m;
    } else {
      var e0, e1 := ChunkBytes(f, cs[0]).value, AllBytes(f, cs[1..]).value;
      assert e + t == e0 + (e1 + t);
      ChunkDecoded(fields, i, cs[0], e0, e1 + t, m, seen);
      var vs := m[i].vs + ChunkValues(cs[0]);
      assert m[i].vs + AllValues(cs) == vs + AllValues(cs[1..]);
      if |vs| <= f.arraySize {
        var m' := m[i := Arr(vs)];
        ChunksDecoded(fields, i, cs[1..], e1, t, m', seen);
        UpdateTwice(m, i, Arr(vs), Arr(vs + AllValues(cs[1..])));
      }
    }
  }

  // ------------------------------------------------------ arbitrary input

  /** Every member of the message is within the memory of its descriptor. */
  predicate Conforms(fields: seq<Field>, m: Msg)
    decreases fields, 2
  {
    |m| == |fields| &&
    forall i :: 0 <= i < |fields| ==> CellConforms(fields, m[i], i)
  }

  predicate CellConforms(fields: seq<Field>, cell: Cell, i: nat)
    requires i < |fields|
    decreases fields, 1
  {
    var f := fields[i];
    if SharesCell(fields, i) then cell.Shared?
    else
      match f.htype
      case Required => cell.Single? && ValueConforms(f, cell.v)
      case Optional => (if HasFlag(f) then cell.Opt? else cell.Single?) && ValueConforms(f, cell.v)
      case Repeated => cell.Arr? && |cell.vs| <= f.arraySize && forall v :: v in cell.vs ==> ValueConforms(f, v)
      case OneOf => cell.Union? && (cell.which == 0 || MemberConforms(fields, cell, i))
  }

  predicate MemberConforms(fields: seq<Field>, cell: Cell, i: nat)
    requires i < |fields| && cell.Union?
    decreases fields, 0
  {
    var k := Find(fields, cell.which);
    k >= 0 && CellOf(fields, k) == i && ValueConforms(fields[k], cell.u)
  }

  predicate ValueConforms(f: Field, v: Value)
    decreases f, 0
  {
    match f.ltype
    case LBytes => v.VBytes? && |v.b| + BYTES_HEADER <= f.dataSize
    case LString => v.VBytes? && |v.b| + 1 <= f.dataSize
    case LFixedLengthBytes => v.VBytes? && |v.b| == f.dataSize
    case LSubmessage(fields) => v.VMsg? && Conforms(fields, v.m)
    case _ => v.VInt? && IntFits(f, v.i)
  }

  /** The default values in the descriptors are values of their fields; only the
      terminator has tag zero. */
  predicate TableOk(fields: seq<Field>)
  {
    forall i :: 0 <= i < |fields| ==> DescriptorOk(fields[i])
  }

  predicate DescriptorOk(f: Field)
  {
    f.tag != 0 &&
    if f.ltype.LSubmessage? then TableOk(f.ltype.fields) else ValueConforms(f, f.initial)
  }

  lemma DefaultsConform(fields: seq<Field>)
    requires TableOk(fields)
    ensures Conforms(fields, Defaults(fields))
    decreases fields, 1
  {
    hide ValueConforms, InitialValue, CellOf, DescriptorOk;
    forall i | 0 <= i < |fields|
      ensures CellConforms(fields, Defaults(fields)[i], i)
    {
      InitialValueConforms(fields[i]);
    }
  }

  lemma InitialValueConforms(f: Field)
    requires DescriptorOk(f)
    ensures ValueConforms(f, InitialValue(f))
    decreases f, 0
  {
    hide Defaults, Conforms, TableOk;
    if f.ltype.LSubmessage? { DefaultsConform(f.ltype.fields); }
  }

  lemma {:induction false} FromLittleEndianBound(s: seq<byte>)
    ensures FromLittleEndian(s) < Pow256(|s|)
  {
    if s != [] {
      FromLittleEndianBound(s[1..]);
      assert Pow256(|s|) == 256 * Pow256(|s| - 1);
    }
  }

  lemma DecIntConforms(f: Field, s: seq<byte>)
    requires Packable(f.ltype) && DecInt(f, s).Ok?
    ensures ValueConforms(f, DecInt(f, s).val)
  {
    hide ReadVarint, FromLittleEndian;
    if f.ltype.LFixed32? || f.ltype.LFixed64? {
      FromLittleEndianBound(Take(s, if f.ltype.LFixed32? then 4 else 8).val);
      Pow256Values();
    }
  }

  lemma {:induction false} DecPackedConforms(f: Field, vs: seq<Value>, s: seq<byte>)
    requires Packable(f.ltype) && DecPacked(f, vs, s).Ok? && |vs| <= f.arraySize
    requires forall v :: v in vs ==> ValueConforms(f, v)
    ensures var r := DecPacked(f, vs, s).val;
      |r| <= f.arraySize && forall v :: v in r ==> ValueConforms(f, v)
    decreases |s|
  {
    hide DecInt, ValueConforms;
    if s != [] {
      DecIntConforms(f, s);
      DecPackedConforms(f, vs + [DecInt(f, s).val], DecInt(f, s).rest);
    }
  }

  lemma DecValueConforms(f: Field, prior: Value, s: seq<byte>)
    requires DescriptorOk(f) && DecValue(f, prior, s).Ok?
    requires f.ltype.LSubmessage? ==> ValueConforms(f, prior)
    ensures ValueConforms(f, DecValue(f, prior, s).val)
    decreases f, |s|, 0
  {
    if Packable(f.ltype) {
      hide DecInt, ValueConforms;
      DecIntConforms(f, s);
    } else {
      hide ReadBlock, DecLoop, Conforms, TableOk, AllRequired;
      if f.ltype.LSubmessage? {
        LoopConforms(f.ltype.fields, ReadBlock(s).val, prior.m, {});
      }
    }
  }

  lemma DecCellConforms(fields: seq<Field>, i: nat, wt: WireType, s: seq<byte>, cell: Cell)
    requires TableOk(fields) && i < |fields| && Find(fields, fields[i].tag) == i && fields[i].tag != 0
    requires CellConforms(fields, cell, CellOf(fields, i))
    requires DecCell(fields[i], wt, s, cell).Ok?
    ensures CellConforms(fields, DecCell(fields[i], wt, s, cell).val, CellOf(fields, i))
    decreases fields, |s|, 1
  {
    var f := fields[i];
    CellOfProperties(fields, i);
    assert DescriptorOk(f);
    hide ReadBlock, DecPacked, ValueConforms, DecValue, InitialValue, CellOf, DescriptorOk, TableOk, Find;
    if IsPackedChunk(f, wt) {
      DecPackedConforms(f, cell.vs, ReadBlock(s).val);
    } else {
      InitialValueConforms(f);
      DecValueConforms(f, Destination(f, cell).val, s);
    }
  }

  /** Whatever the bytes, a destination that is within its memory stays within it: numbers
      in the range of their variables, strings and bytes inside their buffers, arrays
      never longer than array_size, selectors naming members of their unions. */
  lemma {:induction false} LoopConforms(fields: seq<Field>, s: seq<byte>, m: Msg, seen: set<nat>)
    requires TableOk(fields) && Conforms(fields, m)
    requires DecLoop(fields, s, m, seen).Done?
    ensures Conforms(fields, DecLoop(fields, s, m, seen).m)
    decreases fields, |s|, 2
  {
    if s != [] && ReadKey(s).KeyOk? {
      hide ReadKey, DecCell, Skip, CellOf, Mark, CellConforms;
      var k := ReadKey(s);
      var i := Find(fields, k.tag);
      if i < 0 {
        LoopConforms(fields, Skip(k.wt, k.rest).rest, m, seen);
      } else {
        var c := CellOf(fields, i);
        assert DescriptorOk(fields[i]);
        DecCellConforms(fields, i, k.wt, k.rest, m[c]);
        var p := DecCell(fields[i], k.wt, k.rest, m[c]);
        LoopConforms(fields, p.rest, m[c := p.val], Mark(fields, i, seen));
      }
    }
  }
}
