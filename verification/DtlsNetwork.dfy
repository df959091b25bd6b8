/** The DTLS handshake transport end to end: a sender that queues, cuts and retransmits flights,
    a network that loses, repeats and reorders records, and a receiver that reassembles them. */
module DtlsNetwork {
  import opened Options
  import opened Bits
  import opened DtlsFragment
  import opened DtlsReassembly
  import opened DtlsFlight
  import DtlsSender

  /** `net` holds the handshake records ever given to the network; each may arrive any number of
      times, at any time, or never. `delivered` holds what the receiver has returned. */
  datatype State = State(queued: seq<Message>, flight: seq<Out>, cursor: Cursor,
                         net: set<seq<byte>>, ring: Ring, delivered: seq<Frag>)

  function Init(): State
  {
    State([], [], Cursor(0, 0), {}, Ring(0, seq(MAX_FLIGHT, _ => None)), [])
  }

  datatype Step =
    | Queue(newFlight: bool, typ: byte, body: seq<byte>)
    | QueueCcs(newFlight: bool)
    | Transmit(rewind: bool, sent: seq<Piece>, lost: seq<Piece>, end: Cursor)
    | Deliver(record: seq<byte>, lim: Limits)
    | Take

  function Plain(flight: seq<Out>, p: Piece): set<seq<byte>>
  {
    if PieceOk(flight, p) && p.Part? then {FragBytes(flight[p.at].msg, p.off, p.len)} else {}
  }

  /** The handshake records that carry the pieces. */
  function Plains(flight: seq<Out>, ps: seq<Piece>): set<seq<byte>>
  {
    if ps == [] then {} else Plain(flight, ps[0]) + Plains(flight, ps[1..])
  }

  /** What the environment may ask for in a state. A transmission starts at the cursor, or at the
      start of the flight, and may be cut into packets under any sequence of MTUs. */
  predicate Enabled(s: State, a: Step)
  {
    match a
    case Queue(_, _, body) => |s.queued| < 0x1_0000 && |body| < 0x100_0000
    case QueueCcs(_) => true
    case Transmit(rewind, sent, lost, end) => Tiles(s.flight, if rewind then Cursor(0, 0) else s.cursor, sent + lost, end)
    case Deliver(record, _) => record in s.net && RingOk(s.ring)
    case Take => RingOk(s.ring) && Current(s.ring).Some?
  }

  function Next(s: State, a: Step): State
    requires Enabled(s, a)
  {
    match a
    case Queue(anew, typ, body) =>
      var m := Message(typ, |s.queued|, body);
      s.(queued := s.queued + [m],
         flight := (if anew then [] else s.flight) + [Handshake(m)],
         cursor := if anew then Cursor(0, 0) else s.cursor)
    case QueueCcs(anew) =>
      s.(flight := (if anew then [] else s.flight) + [ChangeCipherSpec],
         cursor := if anew then Cursor(0, 0) else s.cursor)
    case Transmit(_, sent, _, end) => s.(net := s.net + Plains(s.flight, sent), cursor := end)
    case Deliver(record, lim) => s.(ring := ReceiveRecord(s.ring, lim, record).ring)
    case Take => s.(delivered := s.delivered + [Current(s.ring).value], ring := Advance(s.ring))
  }

  /** The state after a run, if each of its steps is enabled where it is taken. */
  function Run(steps: seq<Step>): Option<State>
    decreases |steps|
  {
    if steps == [] then Some(Init())
    else
      var t, last := Run(steps[..|steps| - 1]), steps[|steps| - 1];
      if t.Some? && Enabled(t.value, last) then Some(Next(t.value, last)) else None
  }

  // ------------------------------------------------------ what every state keeps

  /** Record `b` carries bytes `off..off + len` of queued message `k`. */
  ghost predicate Carries(queued: seq<Message>, b: seq<byte>, k: nat, off: nat, len: nat)
  {
    k < |queued| && MessageOk(queued[k]) && off + len <= |queued[k].body| && b == FragBytes(queued[k], off, len)
  }

  ghost predicate Honest(queued: seq<Message>, b: seq<byte>)
  {
    exists k: nat, off: nat, len: nat :: Carries(queued, b, k, off, len)
  }

  predicate QueuedOk(queued: seq<Message>)
  {
    forall i :: 0 <= i < |queued| ==> queued[i].seqNo == i && MessageOk(queued[i])
  }

  predicate InFlight(queued: seq<Message>, o: Out)
  {
    o.Handshake? ==> o.msg.seqNo < |queued| && queued[o.msg.seqNo] == o.msg
  }

  /** A message being reassembled agrees with what was queued under its number. */
  predicate Agrees(queued: seq<Message>, f: Frag)
  {
    && f.seqNo < |queued| && f.typ == queued[f.seqNo].typ && |f.body| == |queued[f.seqNo].body| == |f.got|
    && forall i :: 0 <= i < |f.got| && f.got[i] ==> f.body[i] == queued[f.seqNo].body[i]
  }

  predicate RingAgrees(queued: seq<Message>, r: Ring)
  {
    && RingOk(r) && r.readSeq <= |queued|
    && forall i :: 0 <= i < MAX_FLIGHT && r.slots[i].Some? ==> Agrees(queued, r.slots[i].value)
  }

  /** A message all of whose bytes have arrived. */
  function Whole(m: Message): Frag { Frag(m.typ, m.seqNo, m.body, seq(|m.body|, _ => true)) }

  predicate Returned(queued: seq<Message>, delivered: seq<Frag>)
  {
    && |delivered| <= |queued|
    && forall i :: 0 <= i < |delivered| ==> delivered[i] == Whole(queued[i])
  }

  ghost predicate Inv(s: State)
  {
    && QueuedOk(s.queued) && |s.queued| <= 0x1_0000
    && CursorOk(s.flight, s.cursor)
    && (forall i :: 0 <= i < |s.flight| ==> InFlight(s.queued, s.flight[i]))
    && (forall b :: b in s.net ==> Honest(s.queued, b))
    && RingAgrees(s.queued, s.ring)
    && |s.delivered| == s.ring.readSeq && Returned(s.queued, s.delivered)
  }

  // ------------------------------------------------------ each step keeps it

  /** An honest record holds one fragment. */
  lemma OneFragment(r: Ring, lim: Limits, m: Message, off: nat, len: nat)
    requires RingOk(r) && MessageOk(m) && off + len <= |m.body|
    ensures ReceiveRecord(r, lim, FragBytes(m, off, len)) == ReceiveFragment(r, lim, FragHeader(m, off, len), m.body[off..off + len])
  {
    hide HeaderBytes, ReceiveFragment;
    var h, b := FragHeader(m, off, len), m.body[off..off + len];
    ParseInverts(h, b, []);
    assert HeaderBytes(h) + b + [] == FragBytes(m, off, len);
    var o := ReceiveFragment(r, lim, h, b);
    assert ReceiveRecord(o.ring, lim, []) == Accepted(o.ring);
  }

  lemma TargetAgrees(queued: seq<Message>, r: Ring, k: nat, off: nat, len: nat)
    requires RingAgrees(queued, r) && QueuedOk(queued) && k < |queued| && off + len <= |queued[k].body|
    requires r.readSeq <= k < r.readSeq + MAX_FLIGHT
    ensures Refusal(r, FragHeader(queued[k], off, len)) == None
    ensures Agrees(queued, Target(r, FragHeader(queued[k], off, len)))
  {
    var s := r.slots[k % MAX_FLIGHT];
    if s.Some? { SlotSeq(r, k); }
  }

  lemma FillAgrees(queued: seq<Message>, f: Frag, off: nat, len: nat)
    requires Agrees(queued, f) && FragOk(f) && off + len <= |f.body|
    ensures Agrees(queued, Fill(f, off, queued[f.seqNo].body[off..off + len]))
  {}

  lemma StoreAgrees(queued: seq<Message>, r: Ring, k: nat, off: nat, len: nat)
    requires RingAgrees(queued, r) && QueuedOk(queued) && k < |queued| && off + len <= |queued[k].body|
    requires r.readSeq <= k < r.readSeq + MAX_FLIGHT
    ensures Refusal(r, FragHeader(queued[k], off, len)) == None
    ensures RingAgrees(queued, Store(r, FragHeader(queued[k], off, len), queued[k].body[off..off + len]))
  {
    hide Fill, Complete, Agrees, SlotOk, Target;
    TargetAgrees(queued, r, k, off, len);
    var f := Target(r, FragHeader(queued[k], off, len));
    assert |f.body| == |queued[k].body|;
    FillAgrees(queued, f, off, len);
  }

  lemma DeliverAgrees(queued: seq<Message>, r: Ring, lim: Limits, b: seq<byte>)
    requires RingAgrees(queued, r) && QueuedOk(queued) && Honest(queued, b)
    ensures RingAgrees(queued, ReceiveRecord(r, lim, b).ring)
  {
    hide RingAgrees, FragBytes, Store, RingOk;
    var k: nat, off: nat, len: nat :| Carries(queued, b, k, off, len);
    assert RingOk(r) && r.readSeq <= |queued| by { RingAgreesOk(queued, r); }
    OneFragment(r, lim, queued[k], off, len);
    if r.readSeq <= k < r.readSeq + MAX_FLIGHT { StoreAgrees(queued, r, k, off, len); }
  }

  lemma RingAgreesOk(queued: seq<Message>, r: Ring)
    requires RingAgrees(queued, r)
    ensures RingOk(r) && r.readSeq <= |queued|
  {}

  lemma AdvanceAgrees(queued: seq<Message>, r: Ring)
    requires RingAgrees(queued, r) && QueuedOk(queued) && Current(r).Some?
    ensures r.readSeq < |queued| && Current(r).value == Whole(queued[r.readSeq])
    ensures RingAgrees(queued, Advance(r))
  {
    var f := Current(r).value;
    CurrentIsNext(r);
    assert f.body == queued[f.seqNo].body;
  }

  /** Nothing changes for what was queued before. */
  lemma QueueKeeps(queued: seq<Message>, m: Message, r: Ring, delivered: seq<Frag>, net: set<seq<byte>>)
    requires QueuedOk(queued) && m.seqNo == |queued| && MessageOk(m)
    requires RingAgrees(queued, r) && Returned(queued, delivered) && forall b :: b in net ==> Honest(queued, b)
    ensures QueuedOk(queued + [m]) && RingAgrees(queued + [m], r) && Returned(queued + [m], delivered)
    ensures forall b :: b in net ==> Honest(queued + [m], b)
  {
    hide FragBytes, RingOk;
    forall b | b in net ensures Honest(queued + [m], b) {
      var k: nat, off: nat, len: nat :| Carries(queued, b, k, off, len);
      assert Carries(queued + [m], b, k, off, len);
    }
  }

  lemma {:induction false} PlainsAreHonest(queued: seq<Message>, flight: seq<Out>, ps: seq<Piece>, b: seq<byte>)
    requires forall i :: 0 <= i < |flight| ==> InFlight(queued, flight[i])
    requires b in Plains(flight, ps)
    ensures Honest(queued, b)
  {
    hide FragBytes;
    var p := ps[0];
    if b in Plain(flight, p) {
      assert InFlight(queued, flight[p.at]);
      assert Carries(queued, b, flight[p.at].msg.seqNo, p.off, p.len);
    } else {
      PlainsAreHonest(queued, flight, ps[1..], b);
    }
  }

  /** A transmission puts into the network exactly the handshake records that DtlsSender's
      methods hand to the transport. */
  lemma {:induction false} TransportIsPlains(flight: seq<Out>, sent: seq<Piece>, rs: seq<DtlsSender.Record>, b: seq<byte>)
    requires DtlsSender.CarryAll(flight, sent, rs)
    ensures b in Plains(flight, sent) <==>
      exists i :: 0 <= i < |rs| && rs[i].typ == 22 && rs[i].plain == b
    decreases |sent|
  {
    hide FragBytes;
    if sent != [] {
      assert PieceOk(flight, sent[0]) && DtlsSender.Carries(flight, sent[0], rs[0]);
      TransportIsPlains(flight, sent[1..], rs[1..], b);
      assert forall i :: 1 <= i < |rs| ==> rs[i] == rs[1..][i - 1];
    }
  }

  lemma {:induction false} CursorAfter(flight: seq<Out>, c: Cursor, ps: seq<Piece>, d: Cursor)
    requires CursorOk(flight, c) && Tiles(flight, c, ps, d)
    ensures CursorOk(flight, d)
    decreases |ps|
  {
    if ps != [] {
      AfterOk(flight, c, ps[0]);
      CursorAfter(flight, After(flight, ps[0]), ps[1..], d);
    }
  }

  lemma InvInit()
    ensures Inv(Init())
  {}

  lemma InvQueue(s: State, anew: bool, o: Out, m: Message)
    requires Inv(s) && OutOk(o) && (o.Handshake? ==> o.msg == m)
    requires m.seqNo == |s.queued| < 0x1_0000 && MessageOk(m)
    ensures Inv(s.(queued := if o.Handshake? then s.queued + [m] else s.queued,
                   flight := (if anew then [] else s.flight) + [o],
                   cursor := if anew then Cursor(0, 0) else s.cursor))
  {
    hide Honest, RingAgrees, Returned, QueuedOk;
    QueueKeeps(s.queued, m, s.ring, s.delivered, s.net);
  }

  lemma InvTransmit(s: State, a: Step)
    requires Inv(s) && a.Transmit? && Enabled(s, a)
    ensures Inv(Next(s, a))
  {
    hide Honest, RingAgrees, Returned, QueuedOk, Tiles, CursorOk;
    CursorAfter(s.flight, if a.rewind then Cursor(0, 0) else s.cursor, a.sent + a.lost, a.end)
      by { StartOk(s.flight, s.cursor); }
    forall b | b in Plains(s.flight, a.sent) ensures Honest(s.queued, b) {
      PlainsAreHonest(s.queued, s.flight, a.sent, b);
    }
  }

  lemma StartOk(flight: seq<Out>, c: Cursor)
    requires CursorOk(flight, c)
    ensures CursorOk(flight, Cursor(0, 0))
  {}

  lemma InvTake(s: State)
    requires Inv(s) && Enabled(s, Take)
    ensures Inv(Next(s, Take))
  {
    hide Honest, RingAgrees, QueuedOk, CursorOk, Whole;
    AdvanceAgrees(s.queued, s.ring);
  }

  lemma InvStep(s: State, a: Step)
    requires Inv(s) && Enabled(s, a)
    ensures Inv(Next(s, a))
  {
    hide Inv, Tiles, Plains, ReceiveRecord;
    match a
    case Queue(anew, typ, body) => InvQueue(s, anew, Handshake(Message(typ, |s.queued|, body)), Message(typ, |s.queued|, body));
    case QueueCcs(anew) => QueueRoom(s, anew);
    case Transmit(_, _, _, _) => InvTransmit(s, a);
    case Deliver(b, lim) => InvDeliver(s, b, lim);
    case Take => InvTake(s);
  }

  lemma QueueRoom(s: State, anew: bool)
    requires Inv(s)
    ensures Inv(Next(s, QueueCcs(anew)))
  {
    hide Honest, RingAgrees, Returned, QueuedOk;
  }

  lemma InvDeliver(s: State, b: seq<byte>, lim: Limits)
    requires Inv(s) && Enabled(s, Deliver(b, lim))
    ensures Inv(Next(s, Deliver(b, lim)))
  {
    hide Honest, RingAgrees, Returned, QueuedOk, CursorOk, RingOk;
    DeliverAgrees(s.queued, s.ring, lim, b);
  }

  // ------------------------------------------------------ safety

  /** Over every run, what the receiver has returned is exactly the queued messages in order,
      each with its type and its whole body, with none left out and none repeated. */
  lemma {:induction false} DeliveredInOrder(steps: seq<Step>, s: State)
    requires Run(steps) == Some(s)
    ensures Inv(s)
    ensures |s.delivered| == s.ring.readSeq <= |s.queued|
    ensures forall i :: 0 <= i < |s.delivered| ==> s.delivered[i] == Whole(s.queued[i])
    decreases |steps|
  {
    hide Inv, Enabled, Next;
    if steps == [] {
      InvInit();
    } else {
      var t := Run(steps[..|steps| - 1]).value;
      DeliveredInOrder(steps[..|steps| - 1], t);
      InvStep(t, steps[|steps| - 1]);
    }
    InvMeans(s);
  }

  lemma InvMeans(s: State)
    requires Inv(s)
    ensures |s.delivered| == s.ring.readSeq <= |s.queued|
    ensures forall i :: 0 <= i < |s.delivered| ==> s.delivered[i] == Whole(s.queued[i])
  {}

  // ------------------------------------------------------ what a receiver refuses

  /** A fragment of queued message k. */
  datatype Arrival = Arrival(k: nat, off: nat, len: nat)

  predicate ArrivalOk(queued: seq<Message>, a: Arrival)
  {
    a.k < |queued| && MessageOk(queued[a.k]) && a.off + a.len <= |queued[a.k].body|
  }

  function Bytes(queued: seq<Message>, a: Arrival): seq<byte>
    requires ArrivalOk(queued, a)
  {
    FragBytes(queued[a.k], a.off, a.len)
  }

  /** Which honest fragments a receiver refuses. The accept window ends before readSeq + 7, but
      only numbers above readSeq + 7 are ignored. */
  function HonestAlert(queued: seq<Message>, readSeq: nat, lim: Limits, k: nat): Option<Alert>
    requires k < |queued|
  {
    if |queued[k].body| > lim.maxLen then Some(IllegalParameter)
    else if lim.epoch == 1 && k != readSeq then Some(UnexpectedMessage)
    else if k == readSeq + 7 then Some(InternalError)
    else None
  }

  /** The ring with the fragment stored. */
  function Stored(queued: seq<Message>, r: Ring, a: Arrival): Ring
    requires RingAgrees(queued, r) && QueuedOk(queued) && ArrivalOk(queued, a)
    requires r.readSeq <= a.k < r.readSeq + MAX_FLIGHT
  {
    StoreAgrees(queued, r, a.k, a.off, a.len);
    Store(r, FragHeader(queued[a.k], a.off, a.len), queued[a.k].body[a.off..a.off + a.len])
  }

  /** In every reachable state, an honest record is refused in these cases and no others;
      otherwise it is stored or, outside the window, ignored. */
  lemma HonestRefusal(queued: seq<Message>, r: Ring, lim: Limits, a: Arrival)
    requires RingAgrees(queued, r) && QueuedOk(queued) && ArrivalOk(queued, a)
    ensures var o := ReceiveRecord(r, lim, Bytes(queued, a));
      && RingAgrees(queued, o.ring)
      && (o.Refused? <==> HonestAlert(queued, r.readSeq, lim, a.k).Some?)
      && (o.Refused? ==> o.ring == r && Some(o.alert) == HonestAlert(queued, r.readSeq, lim, a.k))
      && (o.Accepted? ==> o.ring == if r.readSeq <= a.k < r.readSeq + 7 then Stored(queued, r, a) else r)
  {
    hide FragBytes, Store, Target, ReceiveRecord, Agrees, SlotOk;
    OneFragment(r, lim, queued[a.k], a.off, a.len);
    if r.readSeq <= a.k < r.readSeq + MAX_FLIGHT { StoreAgrees(queued, r, a.k, a.off, a.len); }
  }

  // ------------------------------------------------------ completeness

  /** Byte i of message k is in the ring (or the message is empty and known). */
  predicate Has(r: Ring, k: nat, i: nat)
  {
    && |r.slots| == MAX_FLIGHT
    && var s := r.slots[k % MAX_FLIGHT];
       s.Some? && s.value.seqNo == k && (i < |s.value.got| ==> s.value.got[i])
  }

  /** A fragment brings its bytes, and no byte is forgotten. */
  lemma StoreHas(queued: seq<Message>, r: Ring, a: Arrival, k: nat, i: nat)
    requires RingAgrees(queued, r) && QueuedOk(queued) && ArrivalOk(queued, a)
    requires r.readSeq <= a.k < r.readSeq + MAX_FLIGHT && r.readSeq <= k < r.readSeq + MAX_FLIGHT
    requires Has(r, k, i) || Brings(queued, a, k, i)
    ensures Has(Stored(queued, r, a), k, i)
  {
    StoreAgrees(queued, r, a.k, a.off, a.len);
    var f := Target(r, FragHeader(queued[a.k], a.off, a.len));
    if k % MAX_FLIGHT == a.k % MAX_FLIGHT {
      SameSlotSameSeq(r.readSeq, a.k, k);
      var g := if Complete(f) then f else Fill(f, a.off, queued[a.k].body[a.off..a.off + a.len]);
      assert |g.got| == |queued[a.k].body|;
      assert i < |g.got| ==> g.got[i];
    }
  }

  predicate Brings(queued: seq<Message>, a: Arrival, k: nat, i: nat)
    requires ArrivalOk(queued, a)
  {
    a.k == k && (a.off <= i < a.off + a.len || queued[k].body == [])
  }

  /** Fragments that arrive one after the other; a refusal ends the connection. */
  function ReceiveAll(queued: seq<Message>, r: Ring, lim: Limits, arrived: seq<Arrival>): (o: Received)
    requires RingOk(r) && forall j :: 0 <= j < |arrived| ==> ArrivalOk(queued, arrived[j])
    ensures RingOk(o.ring) && o.ring.readSeq == r.readSeq
    decreases |arrived|
  {
    if arrived == [] then Accepted(r)
    else
      var o := ReceiveRecord(r, lim, Bytes(queued, arrived[0]));
      if o.Refused? then o else ReceiveAll(queued, o.ring, lim, arrived[1..])
  }

  predicate NoneRefused(queued: seq<Message>, readSeq: nat, lim: Limits, arrived: seq<Arrival>)
  {
    forall j :: 0 <= j < |arrived| ==>
      ArrivalOk(queued, arrived[j]) && HonestAlert(queued, readSeq, lim, arrived[j].k) == None
  }

  /** In whatever order and however often fragments arrive, each byte one of them brings is there. */
  lemma {:induction false} AllBytesArrive(queued: seq<Message>, r: Ring, lim: Limits, arrived: seq<Arrival>, k: nat, i: nat)
    requires RingAgrees(queued, r) && QueuedOk(queued) && NoneRefused(queued, r.readSeq, lim, arrived)
    requires r.readSeq <= k < r.readSeq + MAX_FLIGHT
    requires Has(r, k, i) || exists j :: 0 <= j < |arrived| && Brings(queued, arrived[j], k, i)
    ensures var o := ReceiveAll(queued, r, lim, arrived);
      o.Accepted? && RingAgrees(queued, o.ring) && Has(o.ring, k, i)
    decreases |arrived|
  {
    hide RingAgrees, QueuedOk, Has, ReceiveRecord, Stored, HonestAlert;
    if arrived != [] {
      var a := arrived[0];
      RingAgreesOk(queued, r);
      HonestRefusal(queued, r, lim, a);
      var r' := ReceiveRecord(r, lim, Bytes(queued, a)).ring;
      if r.readSeq <= a.k < r.readSeq + MAX_FLIGHT && (Has(r, k, i) || Brings(queued, a, k, i)) {
        StoreHas(queued, r, a, k, i);
      }
      AllBytesArrive(queued, r', lim, arrived[1..], k, i);
    }
  }

  /** Message k is in the ring, whole. */
  predicate Ready(queued: seq<Message>, r: Ring, k: nat)
    requires k < |queued|
  {
    |r.slots| == MAX_FLIGHT && r.slots[k % MAX_FLIGHT] == Some(Whole(queued[k]))
  }

  lemma HasAllIsReady(queued: seq<Message>, r: Ring, k: nat)
    requires RingAgrees(queued, r) && QueuedOk(queued) && k < |queued| && Has(r, k, 0)
    requires forall i: nat :: i < |queued[k].body| ==> Has(r, k, i)
    ensures Ready(queued, r, k)
  {
    var f := r.slots[k % MAX_FLIGHT].value;
    assert Agrees(queued, f);
    forall i | 0 <= i < |f.got| ensures f.got[i] { assert Has(r, k, i); }
    assert f.body == queued[k].body;
    assert f.got == Whole(queued[k]).got;
  }

  /** Every piece of the transmission is among the fragments that arrive. */
  predicate AllArrive(flight: seq<Out>, pieces: seq<Piece>, arrived: seq<Arrival>)
  {
    forall p :: p in pieces && PieceOk(flight, p) && p.Part? ==> Arrival(flight[p.at].msg.seqNo, p.off, p.len) in arrived
  }

  /** Every piece of message k is. */
  predicate MessageArrives(flight: seq<Out>, pieces: seq<Piece>, arrived: seq<Arrival>, k: nat)
  {
    forall p :: p in pieces && PieceOk(flight, p) && p.Part? && flight[p.at].msg.seqNo == k ==> Arrival(k, p.off, p.len) in arrived
  }

  /** When all pieces of a message that the receiver waits for arrive, among any other fragments
      and in any order, the message becomes complete. */
  lemma MessageCompletes(queued: seq<Message>, r: Ring, flight: seq<Out>, pieces: seq<Piece>, lim: Limits, arrived: seq<Arrival>, w: nat)
    requires RingAgrees(queued, r) && QueuedOk(queued) && NoneRefused(queued, r.readSeq, lim, arrived)
    requires CursorOk(flight, Cursor(0, 0)) && Tiles(flight, Cursor(0, 0), pieces, Cursor(|flight|, 0))
    requires w < |flight| && flight[w].Handshake? && InFlight(queued, flight[w])
    requires MessageArrives(flight, pieces, arrived, flight[w].msg.seqNo)
    requires r.readSeq <= flight[w].msg.seqNo < r.readSeq + 7
    ensures RingOk(r)
    ensures var o := ReceiveAll(queued, r, lim, arrived);
      o.Accepted? && RingAgrees(queued, o.ring) && Ready(queued, o.ring, flight[w].msg.seqNo)
  {
    hide RingAgrees, Has, Tiles, ReceiveAll, Ready, HonestAlert, CursorOk, QueuedOk;
    var m := flight[w].msg;
    var k := m.seqNo;
    RingAgreesOk(queued, r);
    var o := ReceiveAll(queued, r, lim, arrived);
    ByteArrives(flight, pieces, queued, arrived, w, 0);
    AllBytesArrive(queued, r, lim, arrived, k, 0);
    forall i: nat | i < |m.body| ensures Has(o.ring, k, i) {
      ByteArrives(flight, pieces, queued, arrived, w, i);
      AllBytesArrive(queued, r, lim, arrived, k, i);
    }
    HasAllIsReady(queued, o.ring, k);
  }

  /** When all records of one transmission of the flight arrive, among any others and in any
      order, every message of the flight that the receiver waits for becomes complete. */
  lemma FlightCompletes(s: State, pieces: seq<Piece>, lim: Limits, arrived: seq<Arrival>, w: nat)
    requires Inv(s) && Tiles(s.flight, Cursor(0, 0), pieces, Cursor(|s.flight|, 0))
    requires NoneRefused(s.queued, s.ring.readSeq, lim, arrived) && AllArrive(s.flight, pieces, arrived)
    requires w < |s.flight| && s.flight[w].Handshake?
    requires s.ring.readSeq <= s.flight[w].msg.seqNo < s.ring.readSeq + 7
    ensures var o := ReceiveAll(s.queued, s.ring, lim, arrived);
      o.Accepted? && RingAgrees(s.queued, o.ring) && s.flight[w].msg.seqNo < |s.queued| && Ready(s.queued, o.ring, s.flight[w].msg.seqNo)
  {
    hide RingAgrees, Tiles, ReceiveAll, Ready, Honest, Returned, HonestAlert, QueuedOk;
    assert InFlight(s.queued, s.flight[w]);
    StartOk(s.flight, s.cursor);
    MessageCompletes(s.queued, s.ring, s.flight, pieces, lim, arrived, w);
  }

  lemma ByteArrives(flight: seq<Out>, pieces: seq<Piece>, queued: seq<Message>, arrived: seq<Arrival>, w: nat, i: nat)
    requires CursorOk(flight, Cursor(0, 0)) && Tiles(flight, Cursor(0, 0), pieces, Cursor(|flight|, 0))
    requires w < |flight| && flight[w].Handshake? && InFlight(queued, flight[w])
    requires MessageArrives(flight, pieces, arrived, flight[w].msg.seqNo) && forall j :: 0 <= j < |arrived| ==> ArrivalOk(queued, arrived[j])
    requires i < |flight[w].msg.body| || (i == 0 && flight[w].msg.body == [])
    ensures exists j :: 0 <= j < |arrived| && Brings(queued, arrived[j], flight[w].msg.seqNo, i)
  {
    hide Tiles;
    var n := TilesCover(flight, Cursor(0, 0), pieces, w, i);
    var p := pieces[n];
    assert p in pieces;
    var j :| 0 <= j < |arrived| && arrived[j] == Arrival(flight[p.at].msg.seqNo, p.off, p.len);
    assert Brings(queued, arrived[j], flight[w].msg.seqNo, i);
  }

  /** The next `n` messages, if all of them can be taken. */
  function TakeN(r: Ring, n: nat): Option<seq<Frag>>
    requires RingOk(r)
    decreases n
  {
    if n == 0 then Some([])
    else if Current(r).None? then None
    else
      var rest := TakeN(Advance(r), n - 1);
      if rest.None? then None else Some([Current(r).value] + rest.value)
  }

  /** `n` queued messages, whole, from the `from`th on. */
  function Wholes(queued: seq<Message>, from: nat, n: nat): (fs: seq<Frag>)
    requires from + n <= |queued|
    ensures |fs| == n && forall j :: 0 <= j < n ==> fs[j] == Whole(queued[from + j])
    decreases n
  {
    if n == 0 then [] else [Whole(queued[from])] + Wholes(queued, from + 1, n - 1)
  }

  lemma {:induction false} ReadyAreTaken(queued: seq<Message>, r: Ring, n: nat)
    requires RingAgrees(queued, r) && QueuedOk(queued) && r.readSeq + n <= |queued| && n <= MAX_FLIGHT
    requires forall k :: r.readSeq <= k < r.readSeq + n ==> Ready(queued, r, k)
    ensures RingOk(r) && TakeN(r, n) == Some(Wholes(queued, r.readSeq, n))
    decreases n
  {
    hide QueuedOk, RingAgrees, Ready, Whole, Current, Advance, RingOk;
    RingAgreesOk(queued, r);
    if n > 0 {
      ReadyIsCurrent(queued, r);
      AdvanceAgrees(queued, r);
      AdvanceReady(queued, r, n);
      ReadyAreTaken(queued, Advance(r), n - 1);
    }
  }

  /** Taking a message leaves the ones behind it as they are. */
  lemma AdvanceReady(queued: seq<Message>, r: Ring, n: nat)
    requires RingOk(r) && 0 < n <= MAX_FLIGHT && r.readSeq + n <= |queued|
    requires forall k :: r.readSeq <= k < r.readSeq + n ==> Ready(queued, r, k)
    ensures Advance(r).readSeq == r.readSeq + 1
    ensures forall k :: r.readSeq + 1 <= k < r.readSeq + n ==> Ready(queued, Advance(r), k)
  {
    hide Whole, RingOk;
    forall k | r.readSeq + 1 <= k < r.readSeq + n ensures Ready(queued, Advance(r), k) {
      assert Ready(queued, r, k);
      if k % MAX_FLIGHT == r.readSeq % MAX_FLIGHT { SameSlotSameSeq(r.readSeq, r.readSeq, k); }
    }
  }

  lemma ReadyIsCurrent(queued: seq<Message>, r: Ring)
    requires RingOk(r) && r.readSeq < |queued| && Ready(queued, r, r.readSeq)
    ensures Current(r) == Some(Whole(queued[r.readSeq]))
  {}

  /** The messages of a flight that starts at readSeq are then returned, in order. */
  lemma FlightIsDelivered(s: State, pieces: seq<Piece>, lim: Limits, arrived: seq<Arrival>, n: nat)
    requires Inv(s) && Tiles(s.flight, Cursor(0, 0), pieces, Cursor(|s.flight|, 0))
    requires NoneRefused(s.queued, s.ring.readSeq, lim, arrived) && AllArrive(s.flight, pieces, arrived)
    requires n <= 7 && s.ring.readSeq + n <= |s.queued|
    requires forall k :: s.ring.readSeq <= k < s.ring.readSeq + n ==> Handshake(s.queued[k]) in s.flight
    ensures var o := ReceiveAll(s.queued, s.ring, lim, arrived);
      n > 0 ==> o.Accepted? && TakeN(o.ring, n) == Some(Wholes(s.queued, s.ring.readSeq, n))
  {
    hide Tiles, ReceiveAll, TakeN, Ready, AllArrive, Whole, RingAgrees, HonestAlert;
    RingAgreesOk(s.queued, s.ring);
    var o := ReceiveAll(s.queued, s.ring, lim, arrived);
    forall k | s.ring.readSeq <= k < s.ring.readSeq + n
      ensures o.Accepted? && RingAgrees(s.queued, o.ring) && Ready(s.queued, o.ring, k)
    {
      var w :| 0 <= w < |s.flight| && s.flight[w] == Handshake(s.queued[k]);
      FlightCompletes(s, pieces, lim, arrived, w);
    }
    if n > 0 {
      assert Ready(s.queued, o.ring, s.ring.readSeq);
      ReadyAreTaken(s.queued, o.ring, n);
    }
  }
}
