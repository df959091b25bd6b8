/** Receiving DTLS handshake messages: what a fragment does to the ring of messages being
    reassembled, as functions on values. `DtlsReceiver` does it in place. */
module DtlsReassembly {
  import opened Options
  import opened Bits
  import opened DtlsFragment

  const MAX_FLIGHT: nat := 7       // SSL_MAX_HANDSHAKE_FLIGHT

  /** An incoming message: which bytes of its body have arrived, and those bytes (others read 0). */
  datatype Frag = Frag(typ: byte, seqNo: nat, body: seq<byte>, got: seq<bool>)

  predicate FragOk(f: Frag) { |f.got| == |f.body| }

  predicate Complete(f: Frag) { forall i :: 0 <= i < |f.got| ==> f.got[i] }

  function NewFrag(h: Header): Frag
  {
    Frag(h.typ, h.seqNo, seq(h.msgLen, _ => 0), seq(h.msgLen, _ => false))
  }

  /** Bytes `b` arrive for position `off`. */
  function Fill(f: Frag, off: nat, b: seq<byte>): (f': Frag)
    requires FragOk(f) && off + |b| <= |f.body|
    ensures FragOk(f')
  {
    Frag(f.typ, f.seqNo,
         seq(|f.body|, i requires 0 <= i < |f.body| => if off <= i < off + |b| then b[i - off] else f.body[i]),
         seq(|f.got|, i requires 0 <= i < |f.got| => f.got[i] || off <= i < off + |b|))
  }

  /** A range of bytes that arrives. */
  datatype Range = Range(off: nat, bytes: seq<byte>)

  predicate InRange(x: Range, i: nat) { x.off <= i < x.off + |x.bytes| }

  predicate Covered(xs: seq<Range>, i: nat) { exists j :: 0 <= j < |xs| && InRange(xs[j], i) }

  /** Ranges that arrive one after the other; once the message is complete they change nothing. */
  function FillAll(f: Frag, xs: seq<Range>): (f': Frag)
    requires FragOk(f) && forall j :: 0 <= j < |xs| ==> xs[j].off + |xs[j].bytes| <= |f.body|
    ensures FragOk(f') && |f'.body| == |f.body|
    decreases |xs|
  {
    if xs == [] then f
    else FillAll(if Complete(f) then f else Fill(f, xs[0].off, xs[0].bytes), xs[1..])
  }

  /** A byte is marked exactly when some range has covered it. */
  lemma {:induction false} MarkedExactly(f: Frag, xs: seq<Range>, i: nat)
    requires FragOk(f) && (forall j :: 0 <= j < |xs| ==> xs[j].off + |xs[j].bytes| <= |f.body|) && i < |f.got|
    ensures FillAll(f, xs).got[i] <==> f.got[i] || Covered(xs, i)
    decreases |xs|
  {
    if xs != [] {
      MarkedExactly(if Complete(f) then f else Fill(f, xs[0].off, xs[0].bytes), xs[1..], i);
      assert forall j :: 1 <= j < |xs| ==> xs[j] == xs[1..][j - 1];
    }
  }

  /** A new message becomes complete exactly when the ranges cover the whole of it. */
  lemma CompleteExactly(h: Header, xs: seq<Range>)
    requires forall j :: 0 <= j < |xs| ==> xs[j].off + |xs[j].bytes| <= h.msgLen
    ensures Complete(FillAll(NewFrag(h), xs)) <==> forall i: nat :: i < h.msgLen ==> Covered(xs, i)
  {
    hide Covered, FillAll;
    var f := FillAll(NewFrag(h), xs);
    forall i: nat | i < h.msgLen ensures f.got[i] <==> Covered(xs, i) {
      MarkedExactly(NewFrag(h), xs, i);
    }
    if Complete(f) {
      forall i: nat | i < h.msgLen ensures Covered(xs, i) { assert f.got[i]; }
    }
  }

  /** The ring: slot i is for the message with seqNo % 7 == i. */
  datatype Ring = Ring(readSeq: nat, slots: seq<Option<Frag>>)

  /** What every reachable ring keeps. */
  predicate RingOk(r: Ring)
  {
    |r.slots| == MAX_FLIGHT && forall i :: 0 <= i < MAX_FLIGHT && r.slots[i].Some? ==> SlotOk(r, i, r.slots[i].value)
  }

  predicate SlotOk(r: Ring, i: nat, f: Frag)
  {
    FragOk(f) && f.seqNo % MAX_FLIGHT == i && r.readSeq <= f.seqNo < r.readSeq + MAX_FLIGHT
  }

  lemma {:induction false} SameSlotSameSeq(readSeq: nat, a: nat, b: nat)
    requires readSeq <= a < readSeq + MAX_FLIGHT && readSeq <= b < readSeq + MAX_FLIGHT
    requires a % MAX_FLIGHT == b % MAX_FLIGHT
    ensures a == b
  {}

  datatype Alert = UnexpectedMessage | IllegalParameter | DecodeError | InternalError

  /** After a refusal the fragments before the offending one have taken effect. */
  datatype Received = Refused(ring: Ring, alert: Alert) | Accepted(ring: Ring)

  /** Limits of the connection: ssl_max_handshake_message_len and the read epoch. */
  datatype Limits = Limits(maxLen: nat, epoch: nat)

  /** Why dtls1_get_incoming_message refuses a fragment. */
  function Refusal(r: Ring, h: Header): Option<Alert>
    requires RingOk(r)
  {
    if h.seqNo < r.readSeq || h.seqNo - r.readSeq >= MAX_FLIGHT then Some(InternalError)
    else
      var s := r.slots[h.seqNo % MAX_FLIGHT];
      if s.Some? && (s.value.typ != h.typ || |s.value.body| != h.msgLen) then Some(IllegalParameter) else None
  }

  /** The message a fragment belongs to. */
  function Target(r: Ring, h: Header): (f: Frag)
    requires RingOk(r) && Refusal(r, h) == None
    ensures FragOk(f) && f.typ == h.typ && f.seqNo == h.seqNo && |f.body| == h.msgLen
  {
    var s := r.slots[h.seqNo % MAX_FLIGHT];
    if s.Some? then SlotSeq(r, h.seqNo); s.value else NewFrag(h)
  }

  /** The message found in the slot of an acceptable sequence number has that number. */
  lemma SlotSeq(r: Ring, n: nat)
    requires RingOk(r) && r.readSeq <= n < r.readSeq + MAX_FLIGHT && r.slots[n % MAX_FLIGHT].Some?
    ensures r.slots[n % MAX_FLIGHT].value.seqNo == n
  {
    SameSlotSameSeq(r.readSeq, r.slots[n % MAX_FLIGHT].value.seqNo, n);
  }

  lemma PutKeeps(r: Ring, f: Frag)
    requires RingOk(r) && FragOk(f) && r.readSeq <= f.seqNo < r.readSeq + MAX_FLIGHT
    ensures RingOk(r.(slots := r.slots[f.seqNo % MAX_FLIGHT := Some(f)]))
  {}

  /** One fragment of dtls1_open_handshake's loop. */
  function ReceiveFragment(r: Ring, lim: Limits, h: Header, body: seq<byte>): (o: Received)
    requires RingOk(r) && |body| == h.fragLen
    ensures RingOk(o.ring) && o.ring.readSeq == r.readSeq
  {
    if h.fragOff > h.msgLen || h.fragOff + h.fragLen > h.msgLen || h.msgLen > lim.maxLen then Refused(r, IllegalParameter)
    else if lim.epoch == 1 && h.seqNo != r.readSeq then Refused(r, UnexpectedMessage)
    else if h.seqNo < r.readSeq || h.seqNo > r.readSeq + MAX_FLIGHT then Accepted(r)
    else if Refusal(r, h).Some? then Refused(r, Refusal(r, h).value)
    else Accepted(Store(r, h, body))
  }

  /** The bytes of a fragment are stored, unless the message is already assembled. */
  function Store(r: Ring, h: Header, body: seq<byte>): (r': Ring)
    requires RingOk(r) && Refusal(r, h) == None && h.fragOff + |body| <= h.msgLen
    ensures RingOk(r') && r'.readSeq == r.readSeq
  {
    var f := Target(r, h);
    r.(slots := r.slots[h.seqNo % MAX_FLIGHT := Some(if Complete(f) then f else Fill(f, h.fragOff, body))])
  }

  /** All fragments of a handshake record. */
  function ReceiveRecord(r: Ring, lim: Limits, bytes: seq<byte>): (o: Received)
    requires RingOk(r)
    ensures RingOk(o.ring) && o.ring.readSeq == r.readSeq
    decreases |bytes|
  {
    if bytes == [] then Accepted(r)
    else
      match ParseFragment(bytes)
      case Malformed => Refused(r, DecodeError)
      case Fragment(h, body, rest) =>
        var o := ReceiveFragment(r, lim, h, body);
        if o.Refused? then o else ReceiveRecord(o.ring, lim, rest)
  }

  /** What a fragment of message `h.seqNo` brings: its bytes, unless the message is complete. */
  ghost predicate Brings(r: Ring, h: Header, body: seq<byte>, r': Ring)
    requires |r.slots| == 7 && |body| == h.fragLen
  {
    var i := h.seqNo % 7;
    && r'.readSeq == r.readSeq && |r'.slots| == 7 && (forall j :: 0 <= j < 7 && j != i ==> r'.slots[j] == r.slots[j])
    && r'.slots[i].Some?
    && var before, f := r.slots[i], r'.slots[i].value;
       && f.typ == h.typ && f.seqNo == h.seqNo && |f.body| == |f.got| == h.msgLen
       && if before.Some? && (forall k :: 0 <= k < |before.value.got| ==> before.value.got[k]) then r'.slots[i] == before
          else forall k :: 0 <= k < h.msgLen ==>
            if h.fragOff <= k < h.fragOff + h.fragLen then f.got[k] && f.body[k] == body[k - h.fragOff]
            else if before.None? then !f.got[k]
            else
              && k < |before.value.got| && k < |before.value.body|
              && f.got[k] == before.value.got[k] && f.body[k] == before.value.body[k]
  }

  /** A record that begins with any fragment, honest or not: which are refused, and why, which are
      passed over, and what the others do. */
  lemma AnyFragment(r: Ring, lim: Limits, h: Header, body: seq<byte>, t: seq<byte>)
    requires RingOk(r) && HeaderFits(h) && |body| == h.fragLen
    ensures var o := ReceiveRecord(r, lim, HeaderBytes(h) + body + t);
      if h.fragOff + h.fragLen > h.msgLen || h.msgLen > lim.maxLen then o == Refused(r, IllegalParameter)
      else if lim.epoch == 1 && h.seqNo != r.readSeq then o == Refused(r, UnexpectedMessage)
      else if h.seqNo < r.readSeq || h.seqNo > r.readSeq + 7 then o == ReceiveRecord(r, lim, t)
      else if h.seqNo == r.readSeq + 7 then o == Refused(r, InternalError)
      else
        var s := r.slots[h.seqNo % 7];
        if s.Some? && (s.value.typ != h.typ || |s.value.body| != h.msgLen) then o == Refused(r, IllegalParameter)
        else exists r' :: RingOk(r') && Brings(r, h, body, r') && o == ReceiveRecord(r', lim, t)
  {
    hide RingOk, HeaderBytes, ParseFragment, Store, Brings;
    ParseInverts(h, body, t);
    if h.fragOff + h.fragLen <= h.msgLen && r.readSeq <= h.seqNo < r.readSeq + 7 && Refusal(r, h) == None {
      StoreBrings(r, h, body);
    }
    RingSize(r);
  }

  lemma RingSize(r: Ring)
    requires RingOk(r)
    ensures |r.slots| == 7
  {}

  lemma StoreBrings(r: Ring, h: Header, body: seq<byte>)
    requires RingOk(r) && Refusal(r, h) == None && |body| == h.fragLen && h.fragOff + |body| <= h.msgLen
    ensures |r.slots| == 7 && Brings(r, h, body, Store(r, h, body))
  {
    var f := Target(r, h);
  }

  /** A record that begins with a fragment that is cut off is refused. */
  lemma CutOffFragment(r: Ring, lim: Limits, s: seq<byte>)
    requires RingOk(r) && s != []
    requires |s| < 12 || |s| < 12 + 0x1_0000 * (s[9] as int) + 0x100 * (s[10] as int) + s[11]
    ensures ReceiveRecord(r, lim, s) == Refused(r, DecodeError)
  {
    FragmentLayout(s);
  }

  /** dtls1_get_message. */
  function Current(r: Ring): Option<Frag>
    requires RingOk(r)
  {
    var s := r.slots[r.readSeq % MAX_FLIGHT];
    if s.Some? && Complete(s.value) then s else None
  }

  /** The message returned is always the one with the next sequence number. */
  lemma CurrentIsNext(r: Ring)
    requires RingOk(r) && Current(r).Some?
    ensures Current(r).value.seqNo == r.readSeq
  {
    var f := Current(r).value;
    SameSlotSameSeq(r.readSeq, f.seqNo, r.readSeq);
  }

  /** dtls1_next_message. */
  function Advance(r: Ring): (r': Ring)
    requires RingOk(r)
    ensures RingOk(r')
  {
    var i := r.readSeq % MAX_FLIGHT;
    AdvanceKeeps(r);
    Ring(r.readSeq + 1, r.slots[i := None])
  }

  lemma AdvanceKeeps(r: Ring)
    requires RingOk(r)
    ensures RingOk(Ring(r.readSeq + 1, r.slots[r.readSeq % MAX_FLIGHT := None]))
  {
    forall i | 0 <= i < MAX_FLIGHT && i != r.readSeq % MAX_FLIGHT && r.slots[i].Some?
      ensures r.slots[i].value.seqNo != r.readSeq
    {}
  }
}
