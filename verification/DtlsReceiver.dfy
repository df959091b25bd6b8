/** Receiving DTLS handshake messages in place (ssl/d1_both.cc): the bitmask of each message,
    the ring of messages, and the loop over the fragments of a record. */
module DtlsReceiver {
  import opened Options
  import opened Bits
  import opened DtlsFragment
  import opened DtlsReassembly

  /** A bitmask over `n` bytes of which some has not arrived. */
  ghost predicate MaskOk(mask: seq<byte>, n: nat)
  {
    && |mask| == (n + 7) / 8
    && (forall i: nat :: n <= i < 8 * |mask| ==> !BitAt(mask, i))
    && (exists i: nat :: i < n && !BitAt(mask, i))
  }

  lemma MaskSize(mask: seq<byte>, n: nat)
    requires MaskOk(mask, n)
    ensures |mask| == (n + 7) / 8 && n <= 8 * |mask|
  {}

  function Whole(typ: byte, seqNo: nat, d: seq<byte>): Frag { Frag(typ, seqNo, d, seq(|d|, _ => true)) }

  /** A message whose received bytes are marked in `mask`; the others read 0. */
  function Masked(typ: byte, seqNo: nat, d: seq<byte>, mask: seq<byte>): (f: Frag)
    requires |d| <= 8 * |mask|
    ensures FragOk(f)
  {
    Frag(typ, seqNo,
         seq(|d|, i requires 0 <= i < |d| => if BitAt(mask, i) then d[i] else 0),
         seq(|d|, i requires 0 <= i < |d| => BitAt(mask, i)))
  }

  lemma NothingMarked(h: Header, d: seq<byte>, mask: seq<byte>)
    requires |d| == h.msgLen > 0 && |mask| == (h.msgLen + 7) / 8 && forall j :: 0 <= j < |mask| ==> mask[j] == 0
    ensures MaskOk(mask, h.msgLen) && Masked(h.typ, h.seqNo, d, mask) == NewFrag(h)
  {
    forall i: nat | i < 8 * |mask| ensures !BitAt(mask, i) { ZeroBits(i % 8); }
    assert !BitAt(mask, 0);
  }

  /** Storing bytes and marking them is Fill. */
  lemma MarkIsFill(typ: byte, seqNo: nat, d0: seq<byte>, m0: seq<byte>, d1: seq<byte>, m1: seq<byte>, off: nat, b: seq<byte>)
    requires |d0| == |d1| <= 8 * |m0| && off + |b| <= |d0|
    requires d1 == d0[..off] + b + d0[off + |b|..] && Covers(m0, m1, off, off + |b|)
    ensures Masked(typ, seqNo, d1, m1) == Fill(Masked(typ, seqNo, d0, m0), off, b)
  {
    hide BitAt;
    var f1, f2 := Masked(typ, seqNo, d1, m1), Fill(Masked(typ, seqNo, d0, m0), off, b);
    assert f1.got == f2.got;
    assert f1.body == f2.body;
  }

  lemma AllMarkedIsWhole(typ: byte, seqNo: nat, d: seq<byte>, mask: seq<byte>)
    requires |d| <= 8 * |mask| && forall i: nat :: i < |d| ==> BitAt(mask, i)
    ensures Masked(typ, seqNo, d, mask) == Whole(typ, seqNo, d)
  {
    hide BitAt;
  }

  /** hm_fragment: a message being reassembled. `reassembly` is NULL once it is complete. */
  class HmFragment {
    const typ: byte
    const seqNo: nat
    const msgLen: nat
    const data: array<byte>
    var reassembly: array?<byte>
    ghost var Repr: set<object>

    ghost predicate Valid()
      reads this, Repr
    {
      && Repr == {this, data} + (if reassembly == null then {} else {reassembly})
      && msgLen < 0x100_0000 && seqNo < 0x1_0000
      && data.Length == HM_HEADER_LENGTH + msgLen
      && data[..HM_HEADER_LENGTH] == HeaderBytes(Header(typ, msgLen, seqNo, 0, msgLen))
      && (reassembly != null ==> reassembly != data && MaskOk(reassembly[..], msgLen))
    }

    /** The message as a value. */
    ghost function View(): (f: Frag)
      requires Valid()
      reads this, Repr
      ensures FragOk(f)
    {
      var d := data[HM_HEADER_LENGTH..];
      if reassembly == null then Whole(typ, seqNo, d) else Masked(typ, seqNo, d, reassembly[..])
    }

    /** Completeness is read off the pointer. */
    lemma CompleteIsNull()
      requires Valid()
      ensures Complete(View()) <==> reassembly == null
      ensures View().typ == typ && View().seqNo == seqNo && |View().body| == msgLen
    {
      hide BitAt, HeaderBytes;
      if reassembly != null {
        var i: nat :| i < msgLen && !BitAt(reassembly[..], i);
        assert !View().got[i];
      }
    }

    /** dtls1_hm_fragment_new. */
    constructor (h: Header)
      requires HeaderFits(h)
      ensures Valid() && fresh(Repr)
      ensures View() == NewFrag(h)
    {
      hide BitAt, HeaderBytes;
      var d := new byte[HM_HEADER_LENGTH + h.msgLen];
      var header := HeaderBytes(Header(h.typ, h.msgLen, h.seqNo, 0, h.msgLen));
      for i := 0 to HM_HEADER_LENGTH
        invariant d[..i] == header[..i]
      {
        d[i] := header[i];
      }
      var mask: array?<byte> := null;
      if h.msgLen > 0 {
        mask := new byte[(h.msgLen + 7) / 8](_ => 0);
        NothingMarked(h, d[HM_HEADER_LENGTH..], mask[..]);
      }
      typ, seqNo, msgLen, data := h.typ, h.seqNo, h.msgLen, d;
      reassembly := mask;
      new;
      Repr := {this, d};
      if mask != null { Repr := Repr + {mask}; }
      assert d[..HM_HEADER_LENGTH] == header;
    }

    /** dtls1_hm_fragment_mark. */
    method Mark(start: nat, end: nat)
      requires Valid() && reassembly != null && start <= end <= msgLen
      modifies this, reassembly
      ensures Valid() && Repr <= old(Repr)
      ensures Covers(old(reassembly[..]), old(reassembly)[..], start, end)
      ensures View() == Masked(typ, seqNo, data[HM_HEADER_LENGTH..], old(reassembly)[..])
    {
      hide BitAt, HeaderBytes, Masked;
      if start == end { return; }
      MarkBits(reassembly, start, end);
      var all := AllMarked(reassembly, msgLen);
      if all {
        AllMarkedIsWhole(typ, seqNo, data[HM_HEADER_LENGTH..], reassembly[..]);
        reassembly := null;
        Repr := {this, data};
      }
    }

    /** The memcpy of a fragment's body into `data`. */
    method CopyIn(off: nat, body: seq<byte>)
      requires Valid() && off + |body| <= msgLen
      modifies data
      ensures Valid()
      ensures data[HM_HEADER_LENGTH..] == old(data[HM_HEADER_LENGTH..])[..off] + body + old(data[HM_HEADER_LENGTH..])[off + |body|..]
      ensures reassembly != null ==> reassembly[..] == old(if reassembly == null then [] else reassembly[..])
    {
      hide BitAt, HeaderBytes, MaskOk;
      ghost var d0, h0 := data[HM_HEADER_LENGTH..], data[..HM_HEADER_LENGTH];
      for i := 0 to |body|
        invariant data[..HM_HEADER_LENGTH] == h0
        invariant data[HM_HEADER_LENGTH..] == d0[..off] + body[..i] + d0[off + i..]
      {
        ghost var before := data[..];
        data[HM_HEADER_LENGTH + off + i] := body[i];
        assert data[..] == before[HM_HEADER_LENGTH + off + i := body[i]];
        assert data[HM_HEADER_LENGTH..] == before[HM_HEADER_LENGTH..][off + i := body[i]];
      }
      assert body[..|body|] == body;
    }

    /** Copies the bytes of a fragment and marks them. */
    method Receive(off: nat, body: seq<byte>)
      requires Valid() && reassembly != null && off + |body| <= msgLen
      modifies this, data, reassembly
      ensures Valid() && Repr <= old(Repr)
      ensures View() == Fill(old(View()), off, body)
    {
      hide BitAt, HeaderBytes, Masked, Fill, Covers, MaskOk;
      ghost var d0, m0, mask := data[HM_HEADER_LENGTH..], reassembly[..], reassembly;
      CopyIn(off, body);
      ghost var d1 := data[HM_HEADER_LENGTH..];
      Mark(off, off + |body|);
      MaskSize(m0, msgLen);
      MarkIsFill(typ, seqNo, d0, m0, d1, mask[..], off, body);
    }
  }

  const CONTENT_CCS: byte := 20
  const CONTENT_HANDSHAKE: byte := 22
  const CONTENT_APPLICATION_DATA: byte := 23

  datatype Opened = Success | Discard | Error(alert: Alert)

  /** Records other than handshake messages: application data (23), ChangeCipherSpec (20). */
  ghost function OpenOther(nullCipher: bool, typ: byte, record: seq<byte>): Opened
  {
    if typ == 23 then (if nullCipher then Error(UnexpectedMessage) else Discard)
    else if typ == 20 then
      (if !nullCipher then Error(UnexpectedMessage) else if record != [1] then Error(IllegalParameter) else Success)
    else Error(UnexpectedMessage)
  }

  /** The receiving half of the connection state (DTLS1_STATE). */
  class Receiver {
    const ring: array<HmFragment?>
    const maxLen: nat
    var readSeq: nat
    var epoch: nat
    var nullCipher: bool
    var hasMessage: bool
    var hasChangeCipherSpec: bool
    ghost var slots: seq<Option<Frag>>     // the messages in the ring, as values
    ghost var Repr: set<object>

    /** Slot i owns its memory and holds the message `slots[i]`. */
    ghost predicate SlotAt(i: nat)
      requires ring in Repr && i < ring.Length && i < |slots|
      reads this, Repr
    {
      if ring[i] == null then slots[i] == None
      else
        && ring[i] in Repr && ring[i].Repr <= Repr && this !in ring[i].Repr && ring !in ring[i].Repr
        && ring[i].Valid() && slots[i] == Some(ring[i].View())
    }

    ghost predicate Apart(i: nat, j: nat)
      requires ring in Repr && i < ring.Length && j < ring.Length
      reads this, Repr
    {
      ring[i] != null && ring[j] != null && ring[i] in Repr && ring[j] in Repr ==> ring[i].Repr !! ring[j].Repr
    }

    ghost predicate Valid()
      reads this, Repr
    {
      && this in Repr && ring in Repr && ring.Length == MAX_FLIGHT == |slots|
      && (forall i: nat :: i < MAX_FLIGHT ==> SlotAt(i))
      && (forall i: nat, j: nat :: i < j < MAX_FLIGHT ==> Apart(i, j))
      && RingOk(View())
    }

    /** The ring as a value. */
    ghost function View(): Ring
      reads this
    {
      Ring(readSeq, slots)
    }

    /** A slot whose message is not touched stays as it is. */
    twostate lemma SlotKept(i: nat)
      requires old(ring in Repr && i < ring.Length && i < |slots| && SlotAt(i))
      requires old(Repr) <= Repr && i < |slots| && slots[i] == old(slots[i]) && ring[i] == old(ring[i])
      requires ring[i] != null ==> forall o :: o in old(ring[i].Repr) ==> unchanged(o)
      ensures SlotAt(i)
      ensures ring[i] != null ==> ring[i].Repr == old(ring[i].Repr)
    {}

    constructor (maxLen: nat)
      ensures Valid() && fresh(Repr)
      ensures View() == Ring(0, seq(MAX_FLIGHT, _ => None))
      ensures this.maxLen == maxLen && epoch == 0 && !hasMessage && !hasChangeCipherSpec && nullCipher
    {
      this.maxLen := maxLen;
      readSeq, epoch, nullCipher, hasMessage, hasChangeCipherSpec := 0, 0, true, false, false;
      ring := new HmFragment?[MAX_FLIGHT](_ => null);
      slots := seq(MAX_FLIGHT, _ => None);
      new;
      Repr := {this, ring};
    }

    /** dtls1_get_incoming_message. */
    method GetIncomingMessage(h: Header) returns (frag: HmFragment?, alert: Alert)
      requires Valid() && HeaderFits(h)
      modifies this`Repr, this`slots, ring
      ensures Valid() && fresh(Repr - old(Repr))
      ensures frag == null ==> slots == old(slots) && Refusal(old(View()), h) == Some(alert)
      ensures frag != null ==> frag == ring[h.seqNo % MAX_FLIGHT] && Refusal(old(View()), h) == None
      ensures frag != null ==> slots == old(slots)[h.seqNo % MAX_FLIGHT := Some(Target(old(View()), h))]
    {
      hide RingOk;
      alert := InternalError;
      if h.seqNo < readSeq || h.seqNo - readSeq >= MAX_FLIGHT {
        return null, InternalError;
      }
      var idx := h.seqNo % MAX_FLIGHT;
      assert SlotAt(idx);
      frag := ring[idx];
      if frag != null {
        frag.CompleteIsNull();
        SlotSeq(View(), h.seqNo);
        assert frag.seqNo == h.seqNo;    // the assertion in the source
        if frag.typ != h.typ || frag.msgLen != h.msgLen {
          return null, IllegalParameter;
        }
        return;
      }
      frag := new HmFragment(h);
      ring[idx] := frag;
      slots := slots[idx := Some(frag.View())];
      Repr := Repr + frag.Repr;
      PutKeeps(old(View()), frag.View());
      forall i: nat | i < MAX_FLIGHT && i != idx ensures SlotAt(i) && Apart(i, idx) && Apart(idx, i) {
        assert old(SlotAt(i));
        SlotKept(i);
      }
      forall i: nat, j: nat | i < j < MAX_FLIGHT ensures Apart(i, j) { assert old(Apart(i, j)); }
    }

    /** What the loop of dtls1_open_handshake does with one fragment. */
    method TakeFragment(h: Header, body: seq<byte>) returns (alert: Option<Alert>)
      requires Valid() && HeaderFits(h) && |body| == h.fragLen
      modifies this`Repr, this`slots, Repr
      ensures Valid() && fresh(Repr - old(Repr)) && StateKept()
      ensures var o := ReceiveFragment(old(View()), Limits(maxLen, epoch), h, body);
        View() == o.ring && (if o.Refused? then alert == Some(o.alert) else alert == None)
    {
      hide RingOk;
      if h.fragOff > h.msgLen || h.fragOff + h.fragLen > h.msgLen || h.msgLen > maxLen {
        return Some(IllegalParameter);
      }
      if epoch == 1 && h.seqNo != readSeq {
        return Some(UnexpectedMessage);
      }
      if h.seqNo < readSeq || h.seqNo > readSeq + MAX_FLIGHT {
        return None;
      }
      var frag, refused := GetIncomingMessage(h);
      if frag == null {
        return Some(refused);
      }
      alert := None;
      Collect(frag, h, body);
    }

    /** Stores a fragment in the message it belongs to. */
    method Collect(frag: HmFragment, h: Header, body: seq<byte>)
      requires Valid() && Refusal(View(), h) == None && h.fragOff + |body| <= h.msgLen
      requires frag == ring[h.seqNo % MAX_FLIGHT] && slots[h.seqNo % MAX_FLIGHT] == Some(Target(View(), h))
      modifies this`Repr, this`slots, Repr
      ensures Valid() && fresh(Repr - old(Repr)) && StateKept()
      ensures View() == Store(old(View()), h, body)
    {
      hide RingOk, Fill, Complete;
      ghost var idx, f := h.seqNo % MAX_FLIGHT, Target(View(), h);
      assert SlotAt(idx);
      frag.CompleteIsNull();
      if frag.reassembly == null {
        // The message is already assembled.
        assert slots[idx := Some(f)] == slots;
        return;
      }
      frag.Receive(h.fragOff, body);
      slots := slots[idx := Some(frag.View())];
      PutKeeps(old(View()), frag.View());
      forall i: nat | i < MAX_FLIGHT && i != idx ensures SlotAt(i) && Apart(i, idx) && Apart(idx, i) {
        assert old(SlotAt(i)) && (if i < idx then old(Apart(i, idx)) else old(Apart(idx, i)));
        SlotKept(i);
      }
      forall i: nat, j: nat | i < j < MAX_FLIGHT ensures Apart(i, j) { assert old(Apart(i, j)); }
      assert View() == Store(old(View()), h, body);
    }

    /** The fields outside the ring are as they were. */
    twostate predicate StateKept()
      reads this
    {
      && readSeq == old(readSeq) && epoch == old(epoch) && nullCipher == old(nullCipher)
      && hasMessage == old(hasMessage) && hasChangeCipherSpec == old(hasChangeCipherSpec)
    }

    /** dtls1_open_handshake, from the opened record on. */
    method OpenHandshake(typ: byte, record: seq<byte>) returns (res: Opened)
      requires Valid()
      modifies this`Repr, this`slots, this`hasChangeCipherSpec, Repr
      ensures Valid() && fresh(Repr - old(Repr))
      ensures readSeq == old(readSeq) && epoch == old(epoch) && nullCipher == old(nullCipher) && hasMessage == old(hasMessage)
      ensures if typ == 22 then
          var o := ReceiveRecord(old(View()), Limits(maxLen, epoch), record);
          View() == o.ring && res == (if o.Refused? then Error(o.alert) else Success)
        else
          View() == old(View()) && res == OpenOther(nullCipher, typ, record)
      ensures hasChangeCipherSpec == (old(hasChangeCipherSpec) || (typ == 20 && res == Success))
    {
      hide RingOk;
      if typ == CONTENT_APPLICATION_DATA {
        // Unencrypted application data is illegal; otherwise it is out of order.
        if nullCipher {
          return Error(UnexpectedMessage);
        }
        return Discard;
      } else if typ == CONTENT_CCS {
        if !nullCipher {
          return Error(UnexpectedMessage);
        }
        if |record| != 1 || record[0] != 1 {
          return Error(IllegalParameter);
        }
        hasChangeCipherSpec := true;
        forall i: nat | i < MAX_FLIGHT ensures SlotAt(i) { SlotKept(i); }
        forall i: nat, j: nat | i < j < MAX_FLIGHT ensures Apart(i, j) { assert old(Apart(i, j)); }
        return Success;
      } else if typ != CONTENT_HANDSHAKE {
        return Error(UnexpectedMessage);
      }
      var rest := record;
      while |rest| > 0
        invariant Valid() && fresh(Repr - old(Repr)) && StateKept()
        invariant ReceiveRecord(View(), Limits(maxLen, epoch), rest) == ReceiveRecord(old(View()), Limits(maxLen, epoch), record)
        decreases |rest|
      {
        var parsed := ParseFragment(rest);
        if parsed.Malformed? {
          return Error(DecodeError);
        }
        var alert := TakeFragment(parsed.hdr, parsed.body);
        if alert.Some? {
          return Error(alert.value);
        }
        rest := parsed.rest;
      }
      return Success;
    }

    /** dtls1_open_change_cipher_spec, from the opened record on; a ChangeCipherSpec that has been
        seen before is used up first, and the record is then not looked at. */
    method OpenChangeCipherSpec(typ: byte, record: seq<byte>) returns (res: Opened)
      requires Valid()
      modifies this`Repr, this`slots, this`hasChangeCipherSpec, Repr
      ensures Valid() && fresh(Repr - old(Repr))
      ensures readSeq == old(readSeq) && epoch == old(epoch) && nullCipher == old(nullCipher) && hasMessage == old(hasMessage)
      ensures old(hasChangeCipherSpec) ==> res == Success && View() == old(View()) && !hasChangeCipherSpec
      ensures !old(hasChangeCipherSpec) ==> (res == Success <==> typ == 20 && OpenOther(nullCipher, typ, record) == Success)
      ensures res == Success ==> !hasChangeCipherSpec
    {
      hide RingOk, ReceiveRecord;
      if !hasChangeCipherSpec {
        // Both handshake and ChangeCipherSpec records are processed.
        res := OpenHandshake(typ, record);
        if res != Success {
          return res;
        }
      }
      if hasChangeCipherSpec {
        ClearChangeCipherSpec();
        return Success;
      }
      return Discard;
    }

    method ClearChangeCipherSpec()
      requires Valid()
      modifies this`hasChangeCipherSpec
      ensures Valid() && !hasChangeCipherSpec
    {
      hide RingOk;
      hasChangeCipherSpec := false;
      forall i: nat | i < MAX_FLIGHT ensures SlotAt(i) { SlotKept(i); }
      forall i: nat, j: nat | i < j < MAX_FLIGHT ensures Apart(i, j) { assert old(Apart(i, j)); }
    }

    /** dtls1_get_message. */
    method GetMessage() returns (found: bool, typ: byte, body: seq<byte>, raw: seq<byte>)
      requires Valid()
      modifies this`hasMessage
      ensures Valid() && View() == old(View())
      ensures found <==> Current(View()).Some?
      ensures found ==> typ == Current(View()).value.typ && body == Current(View()).value.body
      ensures found ==>
        && |body| < 0x100_0000 && Current(View()).value.seqNo < 0x1_0000
        && raw == HeaderBytes(Header(typ, |body|, Current(View()).value.seqNo, 0, |body|)) + body
      ensures hasMessage == (old(hasMessage) || found)
    {
      hide RingOk, HeaderBytes, Complete;
      var idx := readSeq % MAX_FLIGHT;
      assert SlotAt(idx);
      found, typ, body, raw := false, 0, [], [];
      var frag := ring[idx];
      if frag != null {
        frag.CompleteIsNull();
        if frag.reassembly == null {
          found, typ, body, raw := true, frag.typ, frag.data[HM_HEADER_LENGTH..], frag.data[..];
          assert raw == raw[..HM_HEADER_LENGTH] + body;
          MarkHasMessage();
        }
      }
    }

    method MarkHasMessage()
      requires Valid()
      modifies this`hasMessage
      ensures Valid() && hasMessage
    {
      hide RingOk;
      hasMessage := true;
      forall i: nat | i < MAX_FLIGHT ensures SlotAt(i) { SlotKept(i); }
      forall i: nat, j: nat | i < j < MAX_FLIGHT ensures Apart(i, j) { assert old(Apart(i, j)); }
    }

    /** dtls1_next_message; what it notes about the flight that was sent is Sender.MessageRead. */
    method NextMessage()
      requires Valid() && hasMessage && Current(View()).Some?
      modifies this`hasMessage, this`readSeq, this`slots, ring
      ensures Valid() && !hasMessage && View() == Advance(old(View()))
    {
      hide RingOk;
      var index := readSeq % MAX_FLIGHT;
      ring[index] := null;
      slots := slots[index := None];
      readSeq := readSeq + 1;
      hasMessage := false;
      forall i: nat | i < MAX_FLIGHT && i != index ensures SlotAt(i) {
        assert old(SlotAt(i));
        SlotKept(i);
      }
      forall i: nat, j: nat | i < j < MAX_FLIGHT ensures Apart(i, j) { assert old(Apart(i, j)); }
      assert View() == Advance(old(View()));
    }

    /** Some slot other than that of the current message is occupied. */
    ghost predicate Unprocessed()
      requires Valid()
      reads this, Repr
    {
      exists i: nat :: i < MAX_FLIGHT && slots[i].Some? && !(hasMessage && i == readSeq % MAX_FLIGHT)
    }

    /** dtls_has_unprocessed_handshake_data. */
    method HasUnprocessedHandshakeData() returns (yes: bool)
      requires Valid()
      ensures yes <==> hasChangeCipherSpec || Unprocessed()
    {
      hide RingOk;
      if hasChangeCipherSpec {
        return true;
      }
      var current := readSeq % MAX_FLIGHT;
      for i := 0 to MAX_FLIGHT
        invariant forall k: nat :: k < i && slots[k].Some? ==> hasMessage && k == current
      {
        assert SlotAt(i);
        if hasMessage && i == current {
          continue;
        }
        if ring[i] != null {
          return true;
        }
      }
      return false;
    }
  }
}
