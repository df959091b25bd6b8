/** pb_common.c: the cyclic field iterator, with its offsets into the message struct. */
module PbIter {
  import opened PbSchema

  /** Memory a field takes before the next one. */
  ghost function FieldSize(f: Field): nat
  {
    if f.htype.Repeated? then f.dataSize * f.arraySize else f.dataSize
  }

  /** Where the data of field `i` is, from the layout rule of the descriptor table. */
  ghost function DataAt(fields: seq<Field>, i: nat): (offset: int)
    requires i < |fields|
  {
    if SharesCell(fields, i) then DataAt(fields, i - 1)
    else if i == 0 then fields[0].dataOffset
    else DataAt(fields, i - 1) + FieldSize(fields[i - 1]) + fields[i].dataOffset
  }

  /** Where its has_ flag, count or selector is. */
  ghost function SizeAt(fields: seq<Field>, i: nat): (offset: int)
    requires i < |fields|
  {
    if SharesCell(fields, i) then SizeAt(fields, i - 1) else DataAt(fields, i) + fields[i].sizeOffset
  }

  /** Fields of one union are at one place: the one of the cell they share. */
  lemma {:induction false} CellHasOnePlace(fields: seq<Field>, i: nat)
    requires i < |fields|
    ensures DataAt(fields, CellOf(fields, i)) == DataAt(fields, i)
    ensures SizeAt(fields, CellOf(fields, i)) == SizeAt(fields, i)
  {
    if SharesCell(fields, i) { CellHasOnePlace(fields, i - 1); }
  }

  /** A member begins behind the one before it, all of its entries included. */
  lemma MembersApart(fields: seq<Field>, i: nat)
    requires i + 1 < |fields| && !SharesCell(fields, i + 1)
    ensures DataAt(fields, i + 1) >=
      DataAt(fields, i) + (if fields[i].htype.Repeated? then fields[i].dataSize * fields[i].arraySize else fields[i].dataSize)
  {}

  class FieldIter {
    const start: seq<Field>        // the table, without its terminator
    var pos: nat                   // at the terminator only if the table is empty
    var requiredFieldIndex: nat
    var pData: int
    var pSize: int

    ghost predicate Valid()
      reads this
    {
      if start == [] then pos == 0 && requiredFieldIndex == 0
      else
        && pos < |start|
        && requiredFieldIndex == RequiredBefore(start, pos)
        && pData == DataAt(start, pos) && pSize == SizeAt(start, pos)
    }

    function TagHere(): nat
      reads this
      requires Valid()
    {
      if start == [] then 0 else start[pos].tag
    }

    constructor (fields: seq<Field>)
      ensures start == fields && Valid() && pos == 0
    {
      start, pos, requiredFieldIndex := fields, 0, 0;
      pData := if fields == [] then 0 else fields[0].dataOffset;
      pSize := if fields == [] then 0 else fields[0].dataOffset + fields[0].sizeOffset;
    }

    /** pb_field_iter_begin on an iterator that wraps around. */
    method Begin() returns (more: bool)
      modifies this
      ensures Valid() && pos == 0 && (more <==> start != [])
    {
      pos, requiredFieldIndex := 0, 0;
      if start != [] {
        pData := start[0].dataOffset;
        pSize := pData + start[0].sizeOffset;
      }
      return start != [];
    }

    /** pb_field_iter_next: true, and one field further; or false, and back at the start. */
    method Next() returns (more: bool)
      requires Valid()
      modifies this
      ensures Valid()
      ensures more <==> old(pos) + 1 < |start|
      ensures pos == if more then old(pos) + 1 else 0
    {
      if start == [] {
        return false;
      }
      var prev := start[pos];
      pos := pos + 1;
      if pos == |start| {
        var _ := Begin();
        return false;
      }
      if prev.htype.OneOf? && start[pos].htype.OneOf? && start[pos].dataOffset == PB_SIZE_MAX {
        return true;
      }
      var prevSize := prev.dataSize;
      if prev.htype.Repeated? {
        prevSize := prevSize * prev.arraySize;
      }
      assert prevSize == FieldSize(prev);
      if prev.htype.Required? {
        requiredFieldIndex := requiredFieldIndex + 1;
      }
      pData := pData + prevSize + start[pos].dataOffset;
      pSize := pData + start[pos].sizeOffset;
      return true;
    }

    /** pb_field_iter_find: from any position, at most one lap. An unknown tag leaves the
        iterator where it was; in an empty table tag zero finds the terminator. */
    method FindTag(tag: nat) returns (found: bool)
      requires Valid()
      modifies this
      ensures Valid()
      ensures start != [] ==> (found <==> exists j :: 0 <= j < |start| && start[j].tag == tag)
      ensures start == [] ==> (found <==> tag == 0)
      ensures found ==> TagHere() == tag
      ensures !found ==> pos == old(pos)
    {
      var from := pos;
      ghost var steps := 0;
      while true
        invariant Valid() && from == old(pos)
        invariant start != [] ==> steps < |start| && pos == if from + steps < |start| then from + steps else from + steps - |start|
        invariant start == [] ==> steps == 0
        invariant forall j :: 0 <= j < |start| && Passed(j, from, steps, |start|) ==> start[j].tag != tag
        decreases |start| - steps
      {
        if TagHere() == tag {
          return true;
        }
        var _ := Next();
        if pos == from {
          break;
        }
        steps := steps + 1;
      }
      return false;
    }

    static predicate Passed(j: nat, from: nat, steps: nat, n: nat)
    {
      from <= j < from + steps || j + n < from + steps
    }
  }
}
