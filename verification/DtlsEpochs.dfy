/** A DTLS flight across a change of keys (RFC 6347, sections 4.1 and 4.2.4): records are sealed
    under the epoch of their message, and a receiver drops those of another epoch, so that the
    encrypted Finished counts only when it arrives after the ChangeCipherSpec has been acted on. */
module DtlsEpochs {
  import opened Options
  import opened DtlsFragment
  import opened DtlsReassembly
  import opened DtlsFlight
  import opened DtlsNetwork

  /** A handshake record that arrives, and the epoch it was sealed under. */
  datatype Sealed = Sealed(a: Arrival, epoch: nat)

  /** dtls_open_record: what is not of the read epoch is dropped. */
  function Opened(xs: seq<Sealed>, epoch: nat): (got: seq<Arrival>)
    ensures forall a :: a in got <==> Sealed(a, epoch) in xs
  {
    if xs == [] then [] else (if xs[0].epoch == epoch then [xs[0].a] else []) + Opened(xs[1..], epoch)
  }

  /** Fragments of queued messages, each sealed under the epoch of its message: 1 from message
      `border` on, which is the first one behind the ChangeCipherSpec. */
  predicate SealedOk(queued: seq<Message>, border: nat, xs: seq<Sealed>)
  {
    forall i :: 0 <= i < |xs| ==> ArrivalOk(queued, xs[i].a) && xs[i].epoch == (if xs[i].a.k < border then 0 else 1)
  }

  /** No message is longer than the receiver allows. */
  predicate LengthsOk(queued: seq<Message>, lim: Limits)
  {
    forall k :: 0 <= k < |queued| ==> |queued[k].body| <= lim.maxLen
  }

  /** All pieces that a transmission of the flight makes of message k arrive, under their epoch. */
  predicate PiecesArrive(flight: seq<Out>, pieces: seq<Piece>, xs: seq<Sealed>, k: nat, epoch: nat)
  {
    forall p :: p in pieces && PieceOk(flight, p) && p.Part? && flight[p.at].msg.seqNo == k
      ==> Sealed(Arrival(k, p.off, p.len), epoch) in xs
  }

  /** The ring holds nothing of message `border` or a later one. */
  predicate NothingFrom(r: Ring, border: nat)
  {
    forall i :: 0 <= i < |r.slots| && r.slots[i].Some? ==> r.slots[i].value.seqNo < border
  }

  /** dtls1_next_message, n times. */
  function Skip(r: Ring, n: nat): (r': Ring)
    requires RingOk(r)
    ensures RingOk(r') && r'.readSeq == r.readSeq + n
    decreases n
  {
    if n == 0 then r else Skip(Advance(r), n - 1)
  }

  lemma {:induction false} SkipNothingFrom(r: Ring, n: nat, border: nat)
    requires RingOk(r) && NothingFrom(r, border)
    ensures NothingFrom(Skip(r, n), border)
    decreases n
  {
    if n > 0 { SkipNothingFrom(Advance(r), n - 1, border); }
  }

  lemma {:induction false} SkipAgrees(queued: seq<Message>, r: Ring, n: nat)
    requires RingAgrees(queued, r) && QueuedOk(queued) && RingOk(r) && TakeN(r, n).Some?
    ensures RingAgrees(queued, Skip(r, n))
    decreases n
  {
    hide RingAgrees, QueuedOk, RingOk, Current, Advance;
    if n > 0 {
      AdvanceAgrees(queued, r);
      RingAgreesOk(queued, Advance(r));
      SkipAgrees(queued, Advance(r), n - 1);
    }
  }

  lemma StoreNothingFrom(queued: seq<Message>, r: Ring, a: Arrival, border: nat)
    requires RingAgrees(queued, r) && QueuedOk(queued) && ArrivalOk(queued, a) && a.k < border
    requires r.readSeq <= a.k < r.readSeq + MAX_FLIGHT && NothingFrom(r, border)
    ensures NothingFrom(Stored(queued, r, a), border)
  {
    StoreAgrees(queued, r, a.k, a.off, a.len);
  }

  /** Fragments of earlier messages bring nothing of later ones. */
  lemma {:induction false} ReceiveNothingFrom(queued: seq<Message>, r: Ring, lim: Limits, got: seq<Arrival>, border: nat)
    requires RingAgrees(queued, r) && QueuedOk(queued) && NoneRefused(queued, r.readSeq, lim, got) && RingOk(r)
    requires NothingFrom(r, border) && forall i :: 0 <= i < |got| ==> got[i].k < border
    ensures NothingFrom(ReceiveAll(queued, r, lim, got).ring, border)
    ensures RingAgrees(queued, ReceiveAll(queued, r, lim, got).ring)
    decreases |got|
  {
    hide RingAgrees, QueuedOk, NothingFrom, ReceiveRecord, Stored, HonestAlert, RingOk;
    if got != [] {
      var a := got[0];
      RingAgreesOk(queued, r);
      HonestRefusal(queued, r, lim, a);
      if r.readSeq <= a.k < r.readSeq + MAX_FLIGHT { StoreNothingFrom(queued, r, a, border); }
      ReceiveNothingFrom(queued, ReceiveRecord(r, lim, Bytes(queued, a)).ring, lim, got[1..], border);
    }
  }

  /** What is opened before the change is of messages before the border, and is not refused; */
  lemma OpenedBefore(queued: seq<Message>, readSeq: nat, n: nat, lim: Limits, xs: seq<Sealed>)
    requires SealedOk(queued, readSeq + n, xs) && n <= MAX_FLIGHT && LengthsOk(queued, lim) && lim.epoch == 0
    ensures forall i :: 0 <= i < |Opened(xs, 0)| ==> Opened(xs, 0)[i].k < readSeq + n
    ensures NoneRefused(queued, readSeq, lim, Opened(xs, 0))
  {
    hide Opened;
    var got := Opened(xs, 0);
    forall i | 0 <= i < |got| ensures ArrivalOk(queued, got[i]) && got[i].k < readSeq + n {
      assert got[i] in got;
      var j :| 0 <= j < |xs| && xs[j] == Sealed(got[i], 0);
    }
  }

  /** and what is opened behind it is of the one message there is, the Finished. */
  lemma OpenedBehind(queued: seq<Message>, border: nat, lim: Limits, xs: seq<Sealed>)
    requires SealedOk(queued, border, xs) && |queued| == border + 1 && LengthsOk(queued, lim) && lim.epoch == 1
    ensures NoneRefused(queued, border, lim, Opened(xs, 1))
  {
    hide Opened;
    var got := Opened(xs, 1);
    forall i | 0 <= i < |got| ensures ArrivalOk(queued, got[i]) && got[i].k == border {
      assert got[i] in got;
      var j :| 0 <= j < |xs| && xs[j] == Sealed(got[i], 1);
    }
  }

  /** Messages whose records all arrive under their epoch become complete. */
  lemma Completes(s: State, r: Ring, pieces: seq<Piece>, lim: Limits, xs: seq<Sealed>, epoch: nat, k: nat)
    requires Inv(s) && Tiles(s.flight, Cursor(0, 0), pieces, Cursor(|s.flight|, 0)) && RingAgrees(s.queued, r) && RingOk(r)
    requires NoneRefused(s.queued, r.readSeq, lim, Opened(xs, epoch)) && PiecesArrive(s.flight, pieces, xs, k, epoch)
    requires k < |s.queued| && Handshake(s.queued[k]) in s.flight && r.readSeq <= k < r.readSeq + MAX_FLIGHT
    ensures var o := ReceiveAll(s.queued, r, lim, Opened(xs, epoch));
      o.Accepted? && RingAgrees(s.queued, o.ring) && Ready(s.queued, o.ring, k)
  {
    hide RingAgrees, Tiles, ReceiveAll, Ready, Honest, Returned, HonestAlert, RingOk, Opened;
    var w :| 0 <= w < |s.flight| && s.flight[w] == Handshake(s.queued[k]);
    assert InFlight(s.queued, s.flight[w]);
    StartOk(s.flight, s.cursor);
    var got := Opened(xs, epoch);
    forall p | p in pieces && PieceOk(s.flight, p) && p.Part? && s.flight[p.at].msg.seqNo == k
      ensures Arrival(k, p.off, p.len) in got
    {
      assert Sealed(Arrival(k, p.off, p.len), epoch) in xs;
    }
    MessageCompletes(s.queued, r, s.flight, pieces, lim, got, w);
  }

  /** An empty ring. */
  predicate NoMessages(r: Ring) { forall i :: 0 <= i < |r.slots| ==> r.slots[i] == None }

  lemma EmptyAtBorder(r: Ring, border: nat)
    requires RingOk(r) && r.readSeq == border && NothingFrom(r, border)
    ensures NoMessages(r)
  {}

  /** What the receiver holds when the messages before the ChangeCipherSpec have been read. */
  function AtChange(s: State, lim: Limits, first: seq<Sealed>, n: nat): Ring
    requires RingOk(s.ring) && NoneRefused(s.queued, s.ring.readSeq, lim, Opened(first, 0))
  {
    Skip(ReceiveAll(s.queued, s.ring, lim, Opened(first, 0)).ring, n)
  }

  /** The flight has n messages from readSeq on, and the Finished behind the ChangeCipherSpec.
      If the records of the n messages arrive in the old epoch, from some transmission of the
      flight and among whatever else, the receiver returns the messages in order, and nothing is
      left that would forbid the change of keys. */
  lemma BeforeTheChange(s: State, pieces: seq<Piece>, lim: Limits, first: seq<Sealed>, n: nat)
    requires Inv(s) && RingOk(s.ring) && Tiles(s.flight, Cursor(0, 0), pieces, Cursor(|s.flight|, 0))
    requires 0 < n <= MAX_FLIGHT && s.ring.readSeq + n < |s.queued| && NothingFrom(s.ring, s.ring.readSeq + n)
    requires SealedOk(s.queued, s.ring.readSeq + n, first) && LengthsOk(s.queued, lim) && lim.epoch == 0
    requires forall k :: s.ring.readSeq <= k < s.ring.readSeq + n ==>
      Handshake(s.queued[k]) in s.flight && PiecesArrive(s.flight, pieces, first, k, 0)
    ensures NoneRefused(s.queued, s.ring.readSeq, lim, Opened(first, 0))
    ensures var o, r := ReceiveAll(s.queued, s.ring, lim, Opened(first, 0)), AtChange(s, lim, first, n);
      && o.Accepted? && TakeN(o.ring, n) == Some(Wholes(s.queued, s.ring.readSeq, n))
      && RingAgrees(s.queued, r) && r.readSeq == s.ring.readSeq + n && NoMessages(r)
  {
    hide Tiles, ReceiveAll, TakeN, Ready, Wholes, RingAgrees, Opened, Skip, RingOk, Honest, Returned, PiecesArrive, NothingFrom;
    var border := s.ring.readSeq + n;
    OpenedBefore(s.queued, s.ring.readSeq, n, lim, first);
    var got := Opened(first, 0);
    var o := ReceiveAll(s.queued, s.ring, lim, got);
    forall k | s.ring.readSeq <= k < border ensures o.Accepted? && RingAgrees(s.queued, o.ring) && Ready(s.queued, o.ring, k) {
      Completes(s, s.ring, pieces, lim, first, 0, k);
    }
    assert Ready(s.queued, o.ring, s.ring.readSeq);
    ReadyAreTaken(s.queued, o.ring, n);
    ReceiveNothingFrom(s.queued, s.ring, lim, got, border);
    SkipAgrees(s.queued, o.ring, n);
    SkipNothingFrom(o.ring, n, border);
    EmptyAtBorder(Skip(o.ring, n), border);
  }

  /** If then the records of the Finished arrive in the new epoch, from this or another
      transmission, under whatever MTU, it is returned as well. Records of the other epoch may
      arrive at any time and change nothing. */
  lemma AcrossTheChange(s: State, pieces: seq<Piece>, again: seq<Piece>, lim: Limits, lim': Limits,
                        first: seq<Sealed>, second: seq<Sealed>, n: nat)
    requires Inv(s) && RingOk(s.ring) && Tiles(s.flight, Cursor(0, 0), pieces, Cursor(|s.flight|, 0))
    requires Tiles(s.flight, Cursor(0, 0), again, Cursor(|s.flight|, 0))
    requires 0 < n <= MAX_FLIGHT && s.ring.readSeq + n + 1 == |s.queued| && NothingFrom(s.ring, s.ring.readSeq + n)
    requires SealedOk(s.queued, s.ring.readSeq + n, first) && LengthsOk(s.queued, lim) && lim.epoch == 0
    requires SealedOk(s.queued, s.ring.readSeq + n, second) && LengthsOk(s.queued, lim') && lim'.epoch == 1
    requires forall k :: s.ring.readSeq <= k <= s.ring.readSeq + n ==> Handshake(s.queued[k]) in s.flight
    requires forall k :: s.ring.readSeq <= k < s.ring.readSeq + n ==> PiecesArrive(s.flight, pieces, first, k, 0)
    requires PiecesArrive(s.flight, again, second, s.ring.readSeq + n, 1)
    ensures NoneRefused(s.queued, s.ring.readSeq, lim, Opened(first, 0))
    ensures var r := AtChange(s, lim, first, n);
      && NoneRefused(s.queued, r.readSeq, lim', Opened(second, 1))
      && var o := ReceiveAll(s.queued, r, lim', Opened(second, 1));
         o.Accepted? && TakeN(o.ring, 1) == Some([Whole(s.queued[|s.queued| - 1])])
  {
    hide Tiles, ReceiveAll, TakeN, Ready, RingAgrees, Opened, Skip, RingOk, Honest, Returned, PiecesArrive, NothingFrom, AtChange;
    BeforeTheChange(s, pieces, lim, first, n);
    var r := AtChange(s, lim, first, n);
    var border := s.ring.readSeq + n;
    OpenedBehind(s.queued, border, lim', second);
    RingAgreesOk(s.queued, r);
    Completes(s, r, again, lim', second, 1, border);
    ReadyAreTaken(s.queued, ReceiveAll(s.queued, r, lim', Opened(second, 1)).ring, 1);
    assert Wholes(s.queued, border, 1) == [Whole(s.queued[border])];
  }
}
