/** What `Project` means, cell by cell; the plain round trip as the special case of equal
    message types; and where the round trip stops. */
module PbProjection {
  import opened Options
  import opened Bits
  import opened PbWire
  import opened PbSchema
  import opened PbEncodeSpec
  import opened PbDecodeSpec
  import opened PbRoundTrip

  /** The cell of `small` at `i`, read off the message of type `big` directly. */
  function ProjectedCell(big: seq<Field>, small: seq<Field>, src: Msg, i: nat): Cell
    requires Extends(big, small) && |src| == |big| && i < |small|
  {
    var f := small[i];
    var j := Find(big, f.tag);
    var g, cell := big[j], src[CellOf(big, j)];
    if SharesCell(small, i) then Shared
    else
      match cell
      case Single(v) => Single(if f.htype.Optional? && IsZero(g, cell) then InitialValue(f) else Rebuilt(g, f, v))
      case Opt(has, v) => if has then Opt(true, Rebuilt(g, f, v)) else Opt(false, InitialValue(f))
      case Arr(vs) => Arr(RebuiltAll(g, f, vs))
      case Union(which, u) =>
        (var k := Find(small, which);
         if k >= 0 && CellOf(small, k) == i then Union(which, Rebuilt(big[Find(big, which)], small[k], u))
         else Union(0, VInt(0)))
      case Shared => Shared
  }

  /** Only the field that owns cell `c` changes it. */
  lemma {:induction false} StepAllPlain(big: seq<Field>, small: seq<Field>, src: Msg, k: nat, m: Msg, c: nat)
    requires WellFormed(big) && WellFormed(small) && Extends(big, small)
    requires |src| == |big| && |m| == |small| && k <= |big| && c < |small| && !small[c].htype.OneOf?
    ensures var j := Find(big, small[c].tag);
      StepAll(big, small, src, k, m)[c] ==
        if k <= j then AbsorbAll(small[c], m[c], RebuiltAll(big[j], small[c], ItemsOf(big[j], src[CellOf(big, j)])))
        else m[c]
    decreases |big| - k
  {
    hide AbsorbAll, RebuiltAll, ItemsOf, FieldOk, SameField;
    if k < |big| {
      var g := big[k];
      var i := Find(small, g.tag);
      FindIs(big, k);
      FindIs(small, c);
      if i >= 0 && i != c && CellOf(small, i) == c {
        CellOfProperties(small, c);
        CellsApart(small, i, c);
      }
      CellOfProperties(small, c);
      hide CellOf, WellFormed, Extends;
      StepAllPlain(big, small, src, k + 1, Step(small, g, src[CellOf(big, k)], m), c);
    }
  }

  /** The member of the union at cell `c` that a selector names, or -1. */
  function MemberOf(small: seq<Field>, c: nat, which: nat): (k: int)
    ensures -1 <= k < |small|
    ensures k >= 0 ==> small[k].tag == which && CellOf(small, k) == c
  {
    var k := Find(small, which);
    if k >= 0 && CellOf(small, k) == c then k else -1
  }

  /** In a union cell, only the member named by the selector leaves a mark. */
  lemma {:induction false} StepAllUnion(big: seq<Field>, small: seq<Field>, src: Msg, k: nat, m: Msg, c: nat, which: nat, u: Value)
    requires WellFormed(big) && WellFormed(small) && Extends(big, small)
    requires |src| == |big| && |m| == |small| && k <= |big| && c < |small|
    requires small[c].htype.OneOf? && CellOf(small, c) == c
    requires src[CellOf(big, Find(big, small[c].tag))] == Union(which, u)
    ensures var i := MemberOf(small, c, which);
      StepAll(big, small, src, k, m)[c] ==
        if i >= 0 && k <= Find(big, which) then Union(which, Rebuilt(big[Find(big, which)], small[i], u))
        else m[c]
    decreases |big| - k
  {
    hide FieldOk, SameField, Rebuilt;
    if k < |big| {
      UnionStep(big, small, src, k, m, c, which, u);
      FindIs(big, k);
      hide CellOf, WellFormed, Extends, Step;
      StepAllUnion(big, small, src, k + 1, Step(small, big[k], src[CellOf(big, k)], m), c, which, u);
    }
  }

  lemma UnionStep(big: seq<Field>, small: seq<Field>, src: Msg, k: nat, m: Msg, c: nat, which: nat, u: Value)
    requires WellFormed(big) && WellFormed(small) && Extends(big, small)
    requires |src| == |big| && |m| == |small| && k < |big| && c < |small|
    requires small[c].htype.OneOf? && CellOf(small, c) == c
    requires src[CellOf(big, Find(big, small[c].tag))] == Union(which, u)
    ensures var i := MemberOf(small, c, which);
      Step(small, big[k], src[CellOf(big, k)], m)[c] ==
        if i >= 0 && big[k].tag == which then Union(which, Rebuilt(big[k], small[i], u)) else m[c]
  {
    hide FieldOk, Rebuilt;
    var g := big[k];
    var i := Find(small, g.tag);
    FindIs(big, k);
    if i >= 0 && CellOf(small, i) == c {
      if i != c { CellsApart(small, i, c); }
      var f := small[i];
      assert SameField(g, f);
      assert CellOf(big, k) == CellOf(big, Find(big, small[c].tag));
      hide CellOf, WellFormed, Extends, SameField;
      if g.tag == which {
        AbsorbOne(g, f, m[c], u);
      }
    }
  }

  lemma AbsorbOne(g: Field, f: Field, cell: Cell, v: Value)
    ensures AbsorbAll(f, cell, RebuiltAll(g, f, [v])) == Absorb(f, cell, Rebuilt(g, f, v))
  {
    hide Rebuilt, Absorb;
    assert RebuiltAll(g, f, [v]) == [Rebuilt(g, f, v)];
  }

  lemma {:induction false} EncFromItems(big: seq<Field>, src: Msg, k: nat, j: nat)
    requires |src| == |big| && k <= j < |big| && EncFrom(big, src, k).Some?
    ensures Items(big[j], src[CellOf(big, j)]).Some?
    decreases j - k
  {
    hide CellOf, EncItems, EncPacked, Items;
    if k < j { EncFromItems(big, src, k + 1, j); }
  }

  /** The projection, cell by cell: a required field has its value, an optional field its
      flag and value, a proto3 field its value unless that is zero, a repeated field all
      its entries, and a union the selected member if the smaller type knows it. */
  lemma ProjectIsCellwise(big: seq<Field>, small: seq<Field>, src: Msg, i: nat)
    requires WellFormed(big) && WellFormed(small) && Extends(big, small)
    requires |src| == |big| && EncFrom(big, src, 0).Some? && i < |small|
    ensures Project(big, small, src)[i] == ProjectedCell(big, small, src, i)
  {
    var j := Find(big, small[i].tag);
    EncFromItems(big, src, 0, j);
    assert SameField(big[j], small[i]);
    CellOfProperties(small, i);
    DefaultsAtCell(small, i);
    if CellOf(small, i) != i {
      SharedUntouched(big, small, src, 0, Defaults(small), i);
    } else if small[i].htype.OneOf? {
      ProjectUnion(big, small, src, i);
    } else {
      hide WellFormed, Extends;
      ProjectPlain(big, small, src, i);
    }
  }

  lemma {:induction false} SharedUntouched(big: seq<Field>, small: seq<Field>, src: Msg, k: nat, m: Msg, i: nat)
    requires |src| == |big| && |m| == |small| && k <= |big| && i < |small| && CellOf(small, i) != i
    ensures StepAll(big, small, src, k, m)[i] == m[i]
    decreases |big| - k
  {
    hide AbsorbAll, RebuiltAll, ItemsOf;
    if k < |big| {
      var j := Find(small, big[k].tag);
      if j >= 0 { CellOfProperties(small, j); }
      hide CellOf;
      SharedUntouched(big, small, src, k + 1, Step(small, big[k], src[CellOf(big, k)], m), i);
    }
  }

  lemma ProjectUnion(big: seq<Field>, small: seq<Field>, src: Msg, i: nat)
    requires WellFormed(big) && WellFormed(small) && Extends(big, small)
    requires |src| == |big| && i < |small| && small[i].htype.OneOf? && CellOf(small, i) == i
    requires src[CellOf(big, Find(big, small[i].tag))].Union?
    ensures Project(big, small, src)[i] == ProjectedCell(big, small, src, i)
  {
    var cell := src[CellOf(big, Find(big, small[i].tag))];
    StepAllUnion(big, small, src, 0, Defaults(small), i, cell.which, cell.u);
    DefaultsAtCell(small, i);
    CellOfProperties(small, i);
    var k := MemberOf(small, i, cell.which);
    hide CellOf, Step, Defaults, FieldOk, WellFormed, StepAll;
    if k >= 0 { assert Find(big, small[k].tag) >= 0; }
  }

  lemma ProjectPlain(big: seq<Field>, small: seq<Field>, src: Msg, i: nat)
    requires WellFormed(big) && WellFormed(small) && Extends(big, small)
    requires |src| == |big| && i < |small| && !small[i].htype.OneOf?
    requires Items(big[Find(big, small[i].tag)], src[CellOf(big, Find(big, small[i].tag))]).Some?
    ensures Project(big, small, src)[i] == ProjectedCell(big, small, src, i)
  {
    var f, j := small[i], Find(big, small[i].tag);
    var g, cell := big[j], src[CellOf(big, j)];
    StepAllPlain(big, small, src, 0, Defaults(small), i);
    DefaultsAtCell(small, i);
    CellOfProperties(small, i);
    assert SameField(g, f);
    hide CellOf, Step, Defaults, FieldOk, WellFormed, StepAll, Extends, SameField, RebuiltAll, AbsorbAll, IsZero;
    var vs := ItemsOf(g, cell);
    if f.htype.Repeated? {
      AbsorbArray(f, [], RebuiltAll(g, f, vs));
    } else if vs == [] {
      NothingAbsorbed(g, f, InitialCellOf(f));
    } else {
      AbsorbOne(g, f, InitialCellOf(f), vs[0]);
      assert vs == [vs[0]];
    }
  }

  lemma NothingAbsorbed(g: Field, f: Field, cell: Cell)
    ensures AbsorbAll(f, cell, RebuiltAll(g, f, [])) == cell
  {}

  // ------------------------------------------------------ the plain round trip

  /** A message without leftovers: absent values are at their defaults, strings have no
      bytes behind their terminator, and selectors name members of their unions. */
  predicate NormalMsg(fields: seq<Field>, m: Msg)
    decreases fields, 2
  {
    |m| == |fields| && forall i :: 0 <= i < |fields| ==> NormalCell(fields, m[i], i)
  }

  predicate NormalCell(fields: seq<Field>, cell: Cell, i: nat)
    requires i < |fields|
    decreases fields, 1
  {
    var f := fields[i];
    if SharesCell(fields, i) then cell.Shared?
    else
      match f.htype
      case Required => cell.Single? && NormalValue(f, cell.v)
      case Optional =>
        if HasFlag(f) then cell.Opt? && if cell.has then NormalValue(f, cell.v) else cell.v == InitialValue(f)
        else cell.Single? && NormalValue(f, cell.v) && (IsZero(f, cell) ==> cell.v == InitialValue(f))
      case Repeated => cell.Arr? && NormalValues(f, cell.vs)
      case OneOf => cell.Union? && NormalUnion(fields, cell, i)
  }

  predicate NormalUnion(fields: seq<Field>, cell: Cell, i: nat)
    requires i < |fields| && cell.Union?
    decreases fields, 0
  {
    var k := Find(fields, cell.which);
    if k < 0 then cell == Union(0, VInt(0)) else CellOf(fields, k) == i && NormalValue(fields[k], cell.u)
  }

  predicate NormalValues(f: Field, vs: seq<Value>)
    decreases f, 1, |vs|
  {
    vs == [] || (NormalValue(f, vs[0]) && NormalValues(f, vs[1..]))
  }

  predicate NormalValue(f: Field, v: Value)
    decreases f, 0
  {
    if f.ltype.LSubmessage? then v.VMsg? && NormalMsg(f.ltype.fields, v.m)
    else if f.ltype.LString? then v.VBytes? && CString(v.b, f.dataSize) == v.b
    else true
  }

  lemma ExtendsSelf(fields: seq<Field>)
    requires WellFormed(fields)
    ensures Extends(fields, fields)
    decreases fields, 1
  {
    hide CellOf, SameField;
    forall i | 0 <= i < |fields|
      ensures Find(fields, fields[i].tag) == i && SameField(fields[i], fields[i])
    {
      FindIs(fields, i);
      SameAsSelf(fields[i]);
    }
  }

  lemma SameAsSelf(f: Field)
    requires FieldOk(f)
    ensures SameField(f, f)
    decreases f, 0
  {
    hide WellFormed, Extends;
    if f.ltype.LSubmessage? { ExtendsSelf(f.ltype.fields); }
  }

  lemma RebuiltNormal(f: Field, v: Value)
    requires FieldOk(f) && NormalValue(f, v) && EncValue(f, v).Some?
    ensures Rebuilt(f, f, v) == v
    decreases f, 0
  {
    hide CString, Varint, WellFormed, EncMsg, NormalMsg, Project;
    if f.ltype.LSubmessage? { ProjectNormal(f.ltype.fields, v.m); }
  }

  lemma {:induction false} RebuiltAllNormal(f: Field, vs: seq<Value>)
    requires FieldOk(f) && NormalValues(f, vs)
    requires EncItems(f, vs).Some? || EncPayload(f, vs).Some?
    ensures RebuiltAll(f, f, vs) == vs
    decreases f, 1, |vs|
  {
    hide FieldOk, NormalValue, EncValue, Rebuilt, Key;
    if vs != [] {
      RebuiltNormal(f, vs[0]);
      RebuiltAllNormal(f, vs[1..]);
    }
  }

  lemma {:induction false} EncFromField(big: seq<Field>, src: Msg, k: nat, j: nat)
    requires |src| == |big| && k <= j < |big| && EncFrom(big, src, k).Some?
    ensures EncField(big[j], src[CellOf(big, j)]).Some?
    decreases j - k
  {
    hide CellOf, EncField;
    if k < j { EncFromField(big, src, k + 1, j); }
  }

  lemma ItemsEncoded(f: Field, cell: Cell)
    requires EncField(f, cell).Some?
    ensures Items(f, cell).Some?
    ensures var vs := Items(f, cell).value; EncItems(f, vs).Some? || EncPayload(f, vs).Some?
  {
    hide Items, Key;
  }

  lemma OneEncoded(f: Field, v: Value)
    requires EncItems(f, [v]).Some? || EncPayload(f, [v]).Some?
    ensures EncValue(f, v).Some?
  {
    hide EncValue, Key;
    assert [v][1..] == [];
  }

  lemma NormalCellKept(fields: seq<Field>, m: Msg, i: nat)
    requires WellFormed(fields) && Extends(fields, fields) && |m| == |fields| && i < |fields|
    requires NormalCell(fields, m[i], i) && EncFrom(fields, m, 0).Some?
    ensures ProjectedCell(fields, fields, m, i) == m[i]
    decreases fields, 2
  {
    FindIs(fields, i);
    CellOfProperties(fields, i);
    if !SharesCell(fields, i) {
      var f, cell := fields[i], m[i];
      assert CellOf(fields, i) == i && FieldOk(f);
      EncFromField(fields, m, 0, i);
      ItemsEncoded(f, cell);
      if cell.Union? {
        NormalUnionKept(fields, m, i);
      } else {
        hide CellOf, WellFormed, Extends, EncFrom, FieldOk, NormalValue, NormalValues, EncItems, EncPayload, IsZero, Rebuilt, RebuiltAll, InitialValue, NormalUnion;
        NormalPlainKept(fields, cell, i);
      }
    }
  }

  lemma NormalPlainKept(fields: seq<Field>, cell: Cell, i: nat)
    requires i < |fields| && FieldOk(fields[i]) && !SharesCell(fields, i) && NormalCell(fields, cell, i) && !cell.Union?
    requires Items(fields[i], cell).Some?
    requires var vs := Items(fields[i], cell).value; EncItems(fields[i], vs).Some? || EncPayload(fields[i], vs).Some?
    ensures var f := fields[i];
      match cell
      case Single(v) => (f.htype.Optional? && IsZero(f, cell) && v == InitialValue(f)) || (!(f.htype.Optional? && IsZero(f, cell)) && Rebuilt(f, f, v) == v)
      case Opt(has, v) => if has then Rebuilt(f, f, v) == v else v == InitialValue(f)
      case Arr(vs) => RebuiltAll(f, f, vs) == vs
      case Union(_, _) => true
      case Shared => true
    decreases fields, 1
  {
    hide FieldOk, NormalValue, NormalValues, EncItems, EncPayload, IsZero, Rebuilt, RebuiltAll, InitialValue;
    var f := fields[i];
    var vs := Items(f, cell).value;
    if cell.Arr? {
      RebuiltAllNormal(f, vs);
    } else if vs != [] {
      OneEncoded(f, vs[0]);
      assert vs == [vs[0]];
      RebuiltNormal(f, vs[0]);
    }
  }

  lemma NormalUnionKept(fields: seq<Field>, m: Msg, i: nat)
    requires WellFormed(fields) && Extends(fields, fields) && |m| == |fields| && i < |fields|
    requires CellOf(fields, i) == i && m[i].Union? && NormalUnion(fields, m[i], i) && EncFrom(fields, m, 0).Some?
    ensures !SharesCell(fields, i) && Find(fields, fields[i].tag) == i
    ensures ProjectedCell(fields, fields, m, i) == m[i]
    decreases fields, 1
  {
    hide Rebuilt, NormalValue, FieldOk, SameField, Extends, EncFrom, InitialValue, RebuiltAll;
    FindIs(fields, i);
    CellOfProperties(fields, i);
    var k := Find(fields, m[i].which);
    if k >= 0 {
      MemberKept(fields, m, i, k);
    }
  }

  lemma MemberKept(fields: seq<Field>, m: Msg, i: nat, k: nat)
    requires WellFormed(fields) && |m| == |fields| && i < |fields| && k < |fields|
    requires CellOf(fields, k) == i == CellOf(fields, i)
    requires m[i].Union? && fields[k].tag == m[i].which && NormalValue(fields[k], m[i].u) && EncFrom(fields, m, 0).Some?
    ensures Rebuilt(fields[k], fields[k], m[i].u) == m[i].u
    decreases fields, 0
  {
    hide CellOf, Rebuilt, NormalValue, EncItems, EncPayload, EncFrom, FieldOk;
    EncFromField(fields, m, 0, k);
    ItemsEncoded(fields[k], m[i]);
    CellsOfMember(fields, i, k);
    OneEncoded(fields[k], m[i].u);
    RebuiltNormal(fields[k], m[i].u);
  }

  lemma CellsOfMember(fields: seq<Field>, i: nat, k: nat)
    requires i < |fields| && k < |fields| && CellOf(fields, i) == i && CellOf(fields, k) == i
    ensures k == i || fields[k].htype.OneOf?
  {
    if k != i { CellsApart(fields, i, k); }
  }

  lemma ProjectNormal(fields: seq<Field>, m: Msg)
    requires WellFormed(fields) && NormalMsg(fields, m) && EncMsg(fields, m).Some?
    ensures Extends(fields, fields) && Project(fields, fields, m) == m
    decreases fields, 3
  {
    hide Project, EncFrom, ProjectedCell, FieldOk, NormalCell;
    ExtendsSelf(fields);
    var p := Project(fields, fields, m);
    ProjectLength(fields, fields, m);
    forall i | 0 <= i < |fields|
      ensures p[i] == m[i]
    {
      ProjectIsCellwise(fields, fields, m, i);
      NormalCellKept(fields, m, i);
    }
  }

  lemma ProjectLength(big: seq<Field>, small: seq<Field>, src: Msg)
    requires |src| == |big|
    ensures |Project(big, small, src)| == |small|
  {}

  /** The plain round trip: a normal message whose strings leave room for their terminators
      and whose blocks have 32-bit lengths comes back unchanged, with no byte left over;
      any other message that can be encoded is refused by the decoder. */
  lemma RoundTrip(fields: seq<Field>, m: Msg, e: seq<byte>)
    requires WellFormed(fields) && NormalMsg(fields, m)
    requires EncMsg(fields, m) == Some(e) && |e| < M63
    ensures DecMsg(fields, e) == if Accepts(fields, fields, m) then Ok(m, []) else Err
  {
    hide DecNoInit, WellFormed, NormalMsg, EncMsg, Accepts, Project, Defaults, Extends;
    ProjectNormal(fields, m);
    MsgRoundTrip(fields, fields, m, e);
  }

  /** The round trip does not hold for every message that can be encoded: a string that
      fills its buffer is written, and then refused by the decoder of the same type. */
  lemma FullStringIsRefused()
    ensures var f := Field(1, Required, LString, 0, 0, 1, 0, VBytes([]));
      var m := [Single(VBytes([65]))];
      WellFormed([f]) && NormalMsg([f], m) && EncMsg([f], m).Some? && DecMsg([f], EncMsg([f], m).value) == Err
  {
    var f := Field(1, Required, LString, 0, 0, 1, 0, VBytes([]));
    var v := VBytes([65]);
    var m := [Single(v)];
    CStringWhole([65], 1);
    assert NormalCell([f], m[0], 0);
    assert Varint(1) == [1] && Key(1, WT_STRING) == [10];
    var ev := EncValue(f, v);
    assert ev.Some? && |ev.value| == 2;
    assert EncItems(f, []) == Some([]) && [v][1..] == [];
    assert EncItems(f, [v]).Some? && |EncItems(f, [v]).value| == 3;
    assert EncFrom([f], m, 1) == Some([]);
    assert EncFrom([f], m, 0).Some? && |EncFrom([f], m, 0).value| == 3;
    assert !ValueAccepted(f, f, v);
    FindIs([f], 0);
    assert !FieldAccepted([f], f, m[0]);
    RoundTrip([f], m, EncMsg([f], m).value);
  }
}
