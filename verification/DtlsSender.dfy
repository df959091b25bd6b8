/** Sending DTLS handshake messages in place (ssl/d1_both.cc, ssl/d1_lib.cc): queueing a flight,
    cutting it into packets, resuming, and retransmitting it after a timeout. */
module DtlsSender {
  import opened Bits
  import opened DtlsFragment
  import opened DtlsFlight

  const CONTENT_CCS: byte := 20
  const CONTENT_HANDSHAKE: byte := 22
  const RECORD_HEADER_LENGTH: nat := 13
  const MAX_FLIGHT: nat := 7
  const MIN_MTU: nat := 228
  const DEFAULT_MTU: nat := 1472
  const MTU_TIMEOUTS: nat := 2
  const MAX_TIMEOUTS: nat := 12
  const MAX_TIMEOUT_MS: nat := 60000

  /** A sealed record: what it protects, how long it is on the wire, and under which epoch. */
  datatype Record = Record(typ: byte, plain: seq<byte>, wireLen: nat, epoch: nat)

  /** DTLS_OUTGOING_MESSAGE. */
  datatype Outgoing = Outgoing(data: seq<byte>, epoch: nat, isCcs: bool)

  /** OPENSSL_timeval. */
  datatype TimeVal = TimeVal(sec: nat, usec: nat)

  const NOT_SET := TimeVal(0, 0)

  /** A time in microseconds. */
  ghost function Us(t: TimeVal): nat { 1_000_000 * t.sec + t.usec }

  /** What is left until `next` at `now`; less than 15 ms count as nothing. */
  ghost function TimeLeft(next: TimeVal, now: TimeVal): nat
  {
    if Us(next) < Us(now) + 15_000 then 0 else Us(next) - Us(now)
  }

  lemma TimesInOrder(a: TimeVal, b: TimeVal)
    requires a.usec < 1_000_000 && b.usec < 1_000_000
    ensures a.sec < b.sec || (a.sec == b.sec && a.usec <= b.usec) <==> Us(a) <= Us(b)
  {}

  lemma SmallTime(a: TimeVal)
    requires a.usec < 1_000_000
    ensures a.sec == 0 && a.usec < 15_000 <==> Us(a) < 15_000
  {
    if a.sec > 0 { assert Us(a) >= 1_000_000; }
  }

  lemma NoTime()
    ensures Us(NOT_SET) == 0
  {}

  lemma CutTime(t: TimeVal)
    requires t.sec > 0x7FFF_FFFF
    ensures Us(TimeVal(0x7FFF_FFFF, t.usec)) <= Us(t)
  {}

  /** The time from `b` to `a`. */
  method Minus(a: TimeVal, b: TimeVal) returns (d: TimeVal)
    requires a.usec < 1_000_000 && b.usec < 1_000_000 && Us(a) > Us(b)
    ensures d.usec < 1_000_000 && Us(d) == Us(a) - Us(b)
  {
    var sec := a.sec - b.sec;
    if a.usec >= b.usec {
      return TimeVal(sec, a.usec - b.usec);
    }
    return TimeVal(sec - 1, 1_000_000 + a.usec - b.usec);
  }

  datatype PacketResult = Sealed | SealFailed | MtuTooSmall

  datatype SealResult = SealError | NoProgress | Partial | Success

  /** The entry of the flight that an outgoing message stands for. */
  predicate Represents(m: Outgoing, o: Out)
  {
    if m.isCcs then o.ChangeCipherSpec?
    else o.Handshake? && MessageOk(o.msg) && m.data == FragBytes(o.msg, 0, |o.msg.body|)
  }

  /** dtls1_init_message with the body and dtls1_finish_message: the length of the body is
      written as the fragment length, and then copied over the message length. */
  function Serialize(typ: byte, seqNo: nat, body: seq<byte>): seq<byte>
    requires seqNo < 0x1_0000 && |body| < 0x100_0000
  {
    var s := HeaderBytes(Header(typ, 0, seqNo, 0, |body|)) + body;
    s[..1] + s[9..12] + s[4..]
  }

  lemma SerializeIsWhole(typ: byte, seqNo: nat, body: seq<byte>)
    requires seqNo < 0x1_0000 && |body| < 0x100_0000
    ensures Represents(Outgoing(Serialize(typ, seqNo, body), 0, false), Handshake(Message(typ, seqNo, body)))
  {
    assert body[0..|body|] == body;
  }

  /** The content type and the plaintext of a piece. */
  predicate Carries(flight: seq<Out>, p: Piece, r: Record)
    requires PieceOk(flight, p)
  {
    match p
    case Ccs(_) => r.typ == 20 && r.plain == [1]
    case Part(at, off, len) => r.typ == 22 && r.plain == FragBytes(flight[at].msg, off, len)
  }

  predicate CarryAll(flight: seq<Out>, pieces: seq<Piece>, rs: seq<Record>)
  {
    |pieces| == |rs| && forall i :: 0 <= i < |pieces| ==> PieceOk(flight, pieces[i]) && Carries(flight, pieces[i], rs[i])
  }

  /** Each record is sealed under the epoch in which its message was queued. */
  predicate EpochsKept(messages: seq<Outgoing>, pieces: seq<Piece>, rs: seq<Record>)
  {
    |pieces| == |rs| && forall i :: 0 <= i < |rs| ==> pieces[i].at < |messages| && rs[i].epoch == messages[pieces[i].at].epoch
  }

  function WireLen(rs: seq<Record>): nat
  {
    if rs == [] then 0 else WireLen(rs[..|rs| - 1]) + rs[|rs| - 1].wireLen
  }

  /** The records of several packets. */
  function Records(packets: seq<seq<Record>>): seq<Record>
  {
    if packets == [] then [] else Records(packets[..|packets| - 1]) + packets[|packets| - 1]
  }

  /** One more piece at the end. */
  lemma TilesOne(flight: seq<Out>, c: Cursor, pieces: seq<Piece>, d: Cursor, p: Piece)
    requires Tiles(flight, c, pieces, d) && PieceAt(flight, d, p)
    ensures Tiles(flight, c, pieces + [p], After(flight, p))
  {
    assert Tiles(flight, d, [p], After(flight, p)) by { assert [p][1..] == []; }
    TilesThen(flight, c, pieces, d, [p], After(flight, p));
  }

  class Sender {
    var messages: seq<Outgoing>
    var written: nat
    var offset: nat
    var complete: bool
    var hasReply: bool
    var writeSeq: nat
    var writeEpoch: nat
    var mtu: nat
    const noQueryMtu: bool
    // dtls_max_seal_overhead and dtls_seal_prefix_len for the current and the previous epoch
    var overhead: nat
    var prefix: nat
    var lastOverhead: nat
    var lastPrefix: nat
    // the packets that the transport took
    var transport: seq<seq<Record>>
    // the timer
    var nextTimeout: TimeVal
    var durationMs: nat
    const initialMs: nat
    var numTimeouts: nat
    ghost var flight: seq<Out>
    ghost var faults: nat           // how often sealing, the transport or its flush has failed
    ghost var flushed: nat          // how many packets the transport has flushed

    ghost predicate Valid()
      reads this
    {
      && |flight| == |messages| <= MAX_FLIGHT
      && (forall i :: 0 <= i < |messages| ==> Represents(messages[i], flight[i]))
      && CursorOk(flight, Cursor(written, offset))
      && writeSeq < 0x1_0000 && nextTimeout.usec < 1_000_000
      && RECORD_HEADER_LENGTH <= prefix <= overhead && RECORD_HEADER_LENGTH <= lastPrefix <= lastOverhead
    }

    ghost function At(): Cursor reads this { Cursor(written, offset) }

    /** What sealing, sending and timers leave alone. */
    twostate predicate QueueKept()
      reads this
    {
      && messages == old(messages) && flight == old(flight) && writeSeq == old(writeSeq) && writeEpoch == old(writeEpoch)
      && overhead == old(overhead) && prefix == old(prefix) && lastOverhead == old(lastOverhead) && lastPrefix == old(lastPrefix)
    }

    /** dtls_seal_record: an opaque record, at most the overhead longer than its plaintext. */
    method SealRecord(typ: byte, plain: seq<byte>, maxOverhead: nat, epoch: nat) returns (ok: bool, r: Record)
      requires maxOverhead >= RECORD_HEADER_LENGTH
      modifies this`faults
      ensures faults == old(faults) + (if ok then 0 else 1)
      ensures ok ==> r.typ == typ && r.plain == plain && r.epoch == epoch && RECORD_HEADER_LENGTH <= r.wireLen <= |plain| + maxOverhead
    {
      var n: nat :| RECORD_HEADER_LENGTH <= n <= |plain| + maxOverhead;
      ok := *;
      faults := faults + (if ok then 0 else 1);
      r := Record(typ, plain, n, epoch);
    }

    /** BIO_write of a packet, and BIO_flush. */
    method BioWrite(packet: seq<Record>) returns (bio: int)
      modifies this`transport, this`faults
      ensures bio > 0 ==> transport == old(transport) + [packet] && faults == old(faults)
      ensures bio <= 0 ==> transport == old(transport) && faults == old(faults) + 1
    {
      bio := *;
      if bio > 0 {
        transport := transport + [packet];
      } else {
        faults := faults + 1;
      }
    }

    method BioFlush() returns (ok: bool)
      modifies this`faults, this`flushed
      ensures if ok then faults == old(faults) && flushed == |transport| else faults == old(faults) + 1 && flushed == old(flushed)
    {
      ok := *;
      if ok {
        flushed := |transport|;
      } else {
        faults := faults + 1;
      }
    }

    /** Whether a message of this epoch can be sealed, and with which keys. */
    predicate UsesPrevious(m: Outgoing) reads this { writeEpoch >= 1 && m.epoch == writeEpoch - 1 }
    predicate EpochKnown(m: Outgoing) reads this { UsesPrevious(m) || m.epoch == writeEpoch }
    function OverheadOf(m: Outgoing): nat reads this { if UsesPrevious(m) then lastOverhead else overhead }
    function PrefixOf(m: Outgoing): nat reads this { if UsesPrevious(m) then lastPrefix else prefix }

    /** Whether some of the message at the cursor fits. */
    predicate Fits(m: Outgoing, maxOut: nat)
      reads this
    {
      if m.isCcs then maxOut >= 1 + OverheadOf(m)
      else maxOut >= HM_HEADER_LENGTH + 1 + OverheadOf(m) && maxOut >= PrefixOf(m)
    }

    /** Every message of the flight can be sealed, and a packet of `n` bytes has room for the 12
        bytes of a fragment's header and one byte of its body. */
    ghost predicate CanSend(n: nat)
      reads this
    {
      forall i :: 0 <= i < |messages| ==>
        EpochKnown(messages[i]) && 12 + 1 + OverheadOf(messages[i]) <= n && PrefixOf(messages[i]) <= n
    }

    /** The MTU after dtls1_update_mtu, when the transport answers `answer` (kMinMTU is 228 and
        kDefaultMTU 1472). */
    ghost function Updated(mtu: nat, answer: int): nat
    {
      if mtu >= 228 || noQueryMtu then mtu else if 228 <= answer <= 0x4000_0000 then answer else 1472
    }

    /** The piece that is sealed when something fits: as much of the message as fits. */
    ghost function NextPiece(maxOut: nat): Piece
      requires Valid() && written < |messages| && Fits(messages[written], maxOut)
      reads this
    {
      if messages[written].isCcs then Ccs(written)
      else
        var rest := |flight[written].msg.body| - offset;
        var room := maxOut - HM_HEADER_LENGTH - OverheadOf(messages[written]);
        Part(written, offset, if rest > room then room else rest)
    }

    /** The next message as one fragment, and what of its body is still to be sent. */
    method ParseNext(msg: Outgoing) returns (ok: bool, hdr: Header, body: seq<byte>)
      requires Valid() && written < |messages| && msg == messages[written] && !msg.isCcs
      ensures ok && flight[written].Handshake? && offset <= |flight[written].msg.body|
      ensures hdr == FragHeader(flight[written].msg, 0, |flight[written].msg.body|) && body == flight[written].msg.body[offset..]
    {
      hide HeaderBytes, HeaderOf, ParseFragment;
      ghost var m := flight[written];
      assert Represents(msg, m) && OutOk(m);
      ok, hdr, body := false, Header(0, 0, 0, 0, 0), [];
      var parsed := ParseFragment(msg.data);
      WholeParses(m.msg);
      if parsed.Malformed? || parsed.hdr.fragOff != 0 || parsed.hdr.fragLen != |parsed.body|
         || parsed.hdr.msgLen != |parsed.body| || offset > |parsed.body| || parsed.rest != [] {
        return;
      }
      return true, parsed.hdr, parsed.body[offset..];
    }

    /** seal_next_message. */
    method SealNextMessage(maxOut: nat) returns (res: SealResult, r: Record)
      requires Valid() && written < |messages|
      modifies this`offset, this`faults
      ensures Valid() && faults >= old(faults)
      ensures res == NoProgress <==> EpochKnown(messages[written]) && !Fits(messages[written], maxOut)
      ensures res == SealError <==> !EpochKnown(messages[written]) || faults > old(faults)
      ensures res == SealError || res == NoProgress ==> offset == old(offset)
      ensures res == Partial ==> offset > 0
      ensures res == Partial || res == Success ==>
        && old(Fits(messages[written], maxOut)) && r.wireLen <= maxOut && r.epoch == messages[written].epoch
        && var p := old(NextPiece(maxOut));
           PieceAt(flight, old(At()), p) && Carries(flight, p, r) && offset == After(flight, p).offset
           && (if res == Partial then After(flight, p).written == written else After(flight, p).written == written + 1)
    {
      hide Carries, After;
      var msg := messages[written];
      if !EpochKnown(msg) {
        return SealError, Record(0, [], 0, 0);
      }
      var maxOverhead, pre := OverheadOf(msg), PrefixOf(msg);
      var useEpoch := if UsesPrevious(msg) then writeEpoch - 1 else writeEpoch;
      if msg.isCcs {
        res, r := SealCcs(maxOut, maxOverhead, useEpoch);
        CcsIsOne(flight, written);
      } else {
        res, r := SealFragment(maxOut, maxOverhead, pre, useEpoch);
      }
    }

    method SealCcs(maxOut: nat, maxOverhead: nat, useEpoch: nat) returns (res: SealResult, r: Record)
      requires Valid() && written < |messages| && messages[written].isCcs && EpochKnown(messages[written])
      requires maxOverhead == OverheadOf(messages[written]) && useEpoch == messages[written].epoch
      modifies this`faults
      ensures Valid() && faults >= old(faults) && res != Partial
      ensures res == NoProgress <==> !Fits(messages[written], maxOut)
      ensures res == SealError <==> faults > old(faults)
      ensures res == Success ==>
        && Fits(messages[written], maxOut) && r.wireLen <= maxOut && r.epoch == messages[written].epoch
        && PieceAt(flight, At(), Ccs(written)) && Carries(flight, Ccs(written), r) && offset == 0
    {
      ghost var m := flight[written];
      assert Represents(messages[written], m);
      if maxOut < 1 + maxOverhead {
        return NoProgress, Record(0, [], 0, 0);
      }
      var ok;
      ok, r := SealRecord(CONTENT_CCS, [1], maxOverhead, useEpoch);
      return if ok then Success else SealError, r;
    }

    method SealFragment(maxOut: nat, maxOverhead: nat, pre: nat, useEpoch: nat) returns (res: SealResult, r: Record)
      requires Valid() && written < |messages| && !messages[written].isCcs && EpochKnown(messages[written])
      requires maxOverhead == OverheadOf(messages[written]) && pre == PrefixOf(messages[written])
      requires useEpoch == messages[written].epoch
      modifies this`offset, this`faults
      ensures Valid() && faults >= old(faults)
      ensures res == NoProgress <==> !Fits(messages[written], maxOut)
      ensures res == SealError <==> faults > old(faults)
      ensures res == SealError || res == NoProgress ==> offset == old(offset)
      ensures res == Partial ==> offset > 0
      ensures res == Partial || res == Success ==>
        && old(Fits(messages[written], maxOut)) && r.wireLen <= maxOut && r.epoch == messages[written].epoch
        && var p := old(NextPiece(maxOut));
           PieceAt(flight, old(At()), p) && Carries(flight, p, r) && offset == After(flight, p).offset
           && (if res == Partial then After(flight, p).written == written else After(flight, p).written == written + 1)
    {
      hide HeaderBytes, HeaderOf, ParseFragment, Represents;
      r := Record(0, [], 0, 0);
      var ok, hdr, body := ParseNext(messages[written]);
      if !ok {
        return SealError, r;
      }
      ghost var m := flight[written];
      assert OutOk(m);
      if maxOut < HM_HEADER_LENGTH + 1 + maxOverhead || maxOut < pre {
        return NoProgress, r;
      }
      var todo := |body|;
      if todo > maxOut - HM_HEADER_LENGTH - maxOverhead {
        todo := maxOut - HM_HEADER_LENGTH - maxOverhead;
      }
      if HM_HEADER_LENGTH + todo > maxOut - pre {
        return SealError, r;
      }
      var frag := HeaderBytes(Header(hdr.typ, hdr.msgLen, hdr.seqNo, offset, todo)) + body[..todo];
      assert body[..todo] == m.msg.body[offset..offset + todo];
      ok, r := SealRecord(CONTENT_HANDSHAKE, frag, maxOverhead, useEpoch);
      if !ok {
        return SealError, r;
      }
      if todo == |body| {
        offset := 0;
        return Success, r;
      }
      offset := offset + todo;
      return Partial, r;
    }

    /** seal_next_packet: a packet continues the flight from the cursor without gap or overlap,
        is not empty and is no longer than `maxOut`. When sealing fails in mid-packet, the pieces
        sealed so far are passed over although no packet carries them. */
    method SealNextPacket(maxOut: nat) returns (res: PacketResult, packet: seq<Record>, ghost pieces: seq<Piece>)
      requires Valid() && written < |messages|
      modifies this`offset, this`written, this`faults
      ensures Valid() && faults >= old(faults)
      ensures Tiles(flight, old(At()), pieces, At())
      ensures CanSend(maxOut) && faults == old(faults) ==> res == Sealed
      ensures res == Sealed ==> faults == old(faults)
      ensures res == Sealed ==> packet != [] && pieces != [] && WireLen(packet) <= maxOut
      ensures res == Sealed ==> CarryAll(flight, pieces, packet) && EpochsKept(messages, pieces, packet)
      ensures res == Sealed ==> PacketIsFull(maxOut - WireLen(packet))
      ensures res == MtuTooSmall ==> pieces == [] && !old(Fits(messages[written], maxOut))
    {
      hide Tiles, CarryAll, EpochsKept, WireLen, Carries, PieceAt, After, CursorOk, Represents, FragBytes, MessageOk;
      var madeProgress := false;
      NothingYet(flight, At());
      NoEpochs(messages);
      var total, room := 0, maxOut;
      packet, pieces := [], [];
      while written < |messages|
        invariant Valid() && room == maxOut - total >= 0 && |pieces| == |packet| && total == WireLen(packet) && madeProgress == (packet != [])
        invariant Tiles(flight, old(At()), pieces, At()) && CarryAll(flight, pieces, packet)
        invariant EpochsKept(messages, pieces, packet)
        invariant !madeProgress ==> At() == old(At()) && total == 0
        invariant faults == old(faults)
        decreases |messages| - written
      {
        ghost var c, p := At(), if Fits(messages[written], room) then NextPiece(room) else Ccs(0);
        var ret, r := SealNextMessage(room);
        if ret == SealError {
          return SealFailed, [], pieces;
        }
        if ret == NoProgress {
          break;
        }
        AfterOk(flight, c, p);
        Grow(flight, old(At()), pieces, c, p, packet, r);
        GrowEpochs(messages, pieces, p, packet, r);
        packet, pieces := packet + [r], pieces + [p];
        room, total, madeProgress := room - r.wireLen, total + r.wireLen, true;
        if ret == Partial {
          break;
        }
        written := written + 1;
      }
      return if madeProgress then Sealed else MtuTooSmall, packet, pieces;
    }

    /** dtls1_update_mtu; `answer` is what the transport says when it is asked. */
    method UpdateMtu(answer: int)
      modifies this`mtu
      ensures mtu == Updated(old(mtu), answer)
    {
      if mtu < MIN_MTU && !noQueryMtu {
        if 0 <= answer <= 0x4000_0000 && answer >= MIN_MTU {
          mtu := answer;
        } else {
          mtu := DEFAULT_MTU;
        }
      }
    }

    /** send_flight. What the transport took continues the flight from the old cursor without gap
        or overlap, in packets that are not empty and at most as long as the MTU; the cursor stands
        behind it, also when the transport refuses a packet. Only a sealing failure loses pieces.
        When nothing outside fails and the MTU leaves room for every message, all of it is sent. */
    method SendFlight(shutdown: bool, answer: int) returns (ret: int, ghost sent: seq<Piece>, ghost lost: seq<Piece>)
      requires Valid()
      modifies this`offset, this`written, this`mtu, this`transport, this`flushed, this`faults
      ensures Valid() && |old(transport)| <= |transport| && transport[..|old(transport)|] == old(transport)
      ensures mtu == (if shutdown then old(mtu) else Updated(old(mtu), answer))
      ensures !shutdown && CanSend(mtu) && faults == old(faults) ==> ret == 1
      ensures shutdown ==> ret == -1 && transport == old(transport) && At() == old(At())
      ensures faults >= old(faults)
      ensures Tiles(flight, old(At()), sent + lost, At())
      ensures CarryAll(flight, sent, Records(transport[|old(transport)|..]))
      ensures EpochsKept(messages, sent, Records(transport[|old(transport)|..]))
      ensures PacketsFit(transport[|old(transport)|..], mtu)
      ensures lost != [] ==> ret == -1
      ensures ret == 1 ==> lost == [] && At() == Cursor(|flight|, 0) && faults == old(faults) && flushed == |transport|
      ensures ret <= 1
    {
      hide Tiles, CarryAll, EpochsKept, PieceAt, CursorOk, Represents, MessageOk, Records, PacketsFit;
      if shutdown {
        NothingYet(flight, At());
        NoEpochs(messages);
        NoPackets(flight, mtu);
        assert transport[|old(transport)|..] == [];
        sent, lost := [], [];
        assert sent + lost == sent;
        return -1, sent, lost;
      }
      UpdateMtu(answer);
      ret, sent, lost := SendPackets();
      if ret <= 0 {
        return ret, sent, lost;
      }
      var ok := BioFlush();
      ret := if ok then 1 else -1;
    }

    /** Its loop: one packet after another. */
    method SendPackets() returns (ret: int, ghost sent: seq<Piece>, ghost lost: seq<Piece>)
      requires Valid()
      modifies this`offset, this`written, this`transport, this`faults
      ensures Valid() && |old(transport)| <= |transport| && transport[..|old(transport)|] == old(transport)
      ensures ret <= 1 && faults >= old(faults)
      ensures CanSend(mtu) && faults == old(faults) ==> ret == 1
      ensures Tiles(flight, old(At()), sent + lost, At())
      ensures CarryAll(flight, sent, Records(transport[|old(transport)|..]))
      ensures EpochsKept(messages, sent, Records(transport[|old(transport)|..]))
      ensures PacketsFit(transport[|old(transport)|..], mtu)
      ensures lost != [] ==> ret == -1
      ensures ret == 1 ==> lost == [] && At() == Cursor(|flight|, 0) && faults == old(faults)
    {
      hide Tiles, CarryAll, EpochsKept, WireLen, PieceAt, After, CursorOk, Represents, MessageOk, Records, PacketsFit, BodyLeft;
      sent, lost := [], [];
      NothingYet(flight, At());
      NoEpochs(messages);
      NoPackets(flight, mtu);
      ghost var packets: seq<seq<Record>> := [];
      while written < |messages|
        invariant Valid() && transport == old(transport) + packets && faults == old(faults)
        invariant Tiles(flight, old(At()), sent, At()) && CarryAll(flight, sent, Records(packets)) && PacketsFit(packets, mtu)
        invariant EpochsKept(messages, sent, Records(packets))
        decreases |flight| - written, BodyLeft(flight, At())
      {
        var oldWritten, oldOffset := written, offset;
        ghost var c := At();
        var res, packet, pieces := SealNextPacket(mtu);
        assert transport[|old(transport)|..] == packets;
        if res != Sealed {
          TilesThen(flight, old(At()), sent, c, pieces, At());
          return -1, sent, pieces;
        }
        var bio := BioWrite(packet);
        if bio <= 0 {
          // Retry this packet the next time around.
          written, offset := oldWritten, oldOffset;
          assert sent + [] == sent;
          return bio, sent, [];
        }
        TilesAdvance(flight, c, pieces, At());
        EpochsJoin(messages, sent, packets, pieces, packet);
        OneMorePacket(flight, old(At()), sent, c, pieces, At(), packets, packet, mtu);
        sent, packets := sent + pieces, packets + [packet];
      }
      assert transport[|old(transport)|..] == packets && sent + [] == sent;
      ret := 1;
      AtEnd(flight, At());
    }

    constructor (initialMs: nat, noQueryMtu: bool)
      ensures Valid() && flight == [] && At() == Cursor(0, 0) && writeSeq == 0 && transport == [] && !complete
      ensures mtu == 0 && overhead == prefix == lastOverhead == lastPrefix == 13 && nextTimeout == NOT_SET
    {
      messages, flight, written, offset, complete, hasReply, writeSeq, writeEpoch, mtu := [], [], 0, 0, false, false, 0, 0, 0;
      overhead, prefix, lastOverhead, lastPrefix :=
        RECORD_HEADER_LENGTH, RECORD_HEADER_LENGTH, RECORD_HEADER_LENGTH, RECORD_HEADER_LENGTH;
      transport, nextTimeout, durationMs, numTimeouts := [], NOT_SET, initialMs, 0;
      this.initialMs, this.noQueryMtu := initialMs, noQueryMtu;
    }

    /** dtls_clear_outgoing_messages. */
    method ClearOutgoing()
      requires Valid()
      modifies this`messages, this`flight, this`written, this`offset, this`complete, this`hasReply
      ensures Valid() && flight == [] && At() == Cursor(0, 0) && !complete && !hasReply
    {
      messages, flight, written, offset, complete, hasReply := [], [], 0, 0, false, false;
    }

    /** The flight that a new entry joins: a complete one has been answered and is dropped. */
    ghost function Open(): seq<Out> reads this { if complete then [] else flight }
    ghost function Queued(): seq<Outgoing> reads this { if complete then [] else messages }

    /** add_outgoing. */
    method AddOutgoing(isCcs: bool, data: seq<byte>, ghost o: Out) returns (ok: bool)
      requires Valid() && Represents(Outgoing(data, writeEpoch, isCcs), o)
      modifies this
      ensures Valid() && writeEpoch == old(writeEpoch) && mtu == old(mtu) && transport == old(transport)
      ensures ok <==> old(|Open()|) < 7 && |data| <= 0xFFFF_FFFF
      ensures flight == old(Open()) + (if ok then [o] else [])
      // The message is queued under the epoch that is now written.
      ensures messages == old(Queued()) + (if ok then [Outgoing(data, old(writeEpoch), isCcs)] else [])
      ensures writeSeq == (if ok && !isCcs then (old(writeSeq) + 1) % 0x1_0000 else old(writeSeq))
      ensures !complete && At() == (if old(complete) then Cursor(0, 0) else old(At()))
      ensures old(complete) ==> nextTimeout == NOT_SET && numTimeouts == 0
    {
      hide Represents, MessageOk, CursorOk, OutOk;
      if complete {
        StopTimer();
        ClearOutgoing();
      }
      if |messages| >= MAX_FLIGHT || |data| > 0xFFFF_FFFF {
        assert flight == flight + [];
        return false;
      }
      RepresentsOk(Outgoing(data, writeEpoch, isCcs), o);
      CursorStays(flight, At(), o);
      if !isCcs {
        writeSeq := (writeSeq + 1) % 0x1_0000;
      }
      messages, flight := messages + [Outgoing(data, writeEpoch, isCcs)], flight + [o];
      return true;
    }

    /** dtls1_init_message, the body, dtls1_finish_message and dtls1_add_message. */
    method AddMessage(typ: byte, body: seq<byte>) returns (ok: bool)
      requires Valid()
      modifies this
      ensures Valid() && writeEpoch == old(writeEpoch) && mtu == old(mtu) && transport == old(transport)
      ensures ok <==> |body| < 0x100_0000 && old(|Open()|) < 7
      ensures ok ==> flight == old(Open()) + [Handshake(Message(typ, old(writeSeq), body))]
      ensures ok ==> writeSeq == (old(writeSeq) + 1) % 0x1_0000
      ensures ok ==> |messages| > 0 && messages[..|messages| - 1] == old(Queued()) && messages[|messages| - 1].epoch == old(writeEpoch)
      ensures ok ==> !complete && At() == (if old(complete) then Cursor(0, 0) else old(At()))
    {
      if |body| >= 0x100_0000 {
        return false;       // the length does not fit
      }
      SerializeIsWhole(typ, writeSeq, body);
      ok := AddOutgoing(false, Serialize(typ, writeSeq, body), Handshake(Message(typ, writeSeq, body)));
    }

    /** dtls1_add_change_cipher_spec. */
    method AddChangeCipherSpec() returns (ok: bool)
      requires Valid()
      modifies this
      ensures Valid() && writeEpoch == old(writeEpoch) && writeSeq == old(writeSeq) && transport == old(transport)
      ensures ok <==> old(|Open()|) < 7
      ensures ok ==> flight == old(Open()) + [ChangeCipherSpec]
      ensures ok ==> |messages| > 0 && messages[..|messages| - 1] == old(Queued()) && messages[|messages| - 1].epoch == old(writeEpoch)
    {
      ok := AddOutgoing(true, [], ChangeCipherSpec);
    }

    /** dtls1_set_write_state. */
    method SetWriteState(newOverhead: nat, newPrefix: nat)
      requires Valid() && RECORD_HEADER_LENGTH <= newPrefix <= newOverhead
      modifies this`writeEpoch, this`overhead, this`prefix, this`lastOverhead, this`lastPrefix
      ensures Valid() && writeEpoch == old(writeEpoch) + 1
      // A message queued just before the change is still sealed with the keys it was queued under.
      ensures forall m: Outgoing :: m.epoch == old(writeEpoch) ==>
        EpochKnown(m) && OverheadOf(m) == old(overhead) && PrefixOf(m) == old(prefix)
    {
      writeEpoch, lastOverhead, lastPrefix, overhead, prefix := writeEpoch + 1, overhead, prefix, newOverhead, newPrefix;
    }

    /** dtls1_flush_flight. */
    method FlushFlight(now: TimeVal, shutdown: bool, answer: int) returns (ret: int, ghost sent: seq<Piece>, ghost lost: seq<Piece>)
      requires Valid() && now.usec < 1_000_000
      modifies this`offset, this`written, this`mtu, this`transport, this`flushed, this`complete, this`nextTimeout, this`durationMs, this`faults
      ensures Valid() && complete && Us(nextTimeout) == Us(now) + 1000 * durationMs
      ensures durationMs == (if old(nextTimeout) == NOT_SET then initialMs else old(durationMs))
      ensures mtu == (if shutdown then old(mtu) else Updated(old(mtu), answer))
      ensures !shutdown && CanSend(mtu) && faults == old(faults) ==> ret == 1
      ensures |old(transport)| <= |transport| && transport[..|old(transport)|] == old(transport)
      ensures Tiles(flight, old(At()), sent + lost, At())
      ensures CarryAll(flight, sent, Records(transport[|old(transport)|..]))
      ensures EpochsKept(messages, sent, Records(transport[|old(transport)|..]))
      ensures PacketsFit(transport[|old(transport)|..], mtu)
      ensures ret == 1 ==> lost == [] && At() == Cursor(|flight|, 0) && faults == old(faults) && flushed == |transport|
    {
      hide Tiles, CarryAll, EpochsKept, PacketsFit, CursorOk, Represents;
      complete := true;
      StartTimer(now);
      ret, sent, lost := SendFlight(shutdown, answer);
    }

    /** dtls1_retransmit_outgoing_messages: on success the whole flight has been sent once more. */
    method Retransmit(shutdown: bool, answer: int) returns (ret: int, ghost sent: seq<Piece>, ghost lost: seq<Piece>)
      requires Valid()
      modifies this`offset, this`written, this`mtu, this`transport, this`flushed, this`faults
      ensures Valid()
      ensures |old(transport)| <= |transport| && transport[..|old(transport)|] == old(transport)
      ensures mtu == (if shutdown then old(mtu) else Updated(old(mtu), answer))
      ensures !shutdown && CanSend(mtu) && faults == old(faults) ==> ret == 1
      ensures Tiles(flight, Cursor(0, 0), sent + lost, At())
      ensures CarryAll(flight, sent, Records(transport[|old(transport)|..]))
      ensures EpochsKept(messages, sent, Records(transport[|old(transport)|..]))
      ensures PacketsFit(transport[|old(transport)|..], mtu)
      ensures ret == 1 ==> lost == [] && At() == Cursor(|flight|, 0) && faults == old(faults) && flushed == |transport|
    {
      hide Tiles, CarryAll, EpochsKept, PacketsFit;
      written, offset := 0, 0;
      ret, sent, lost := SendFlight(shutdown, answer);
    }

    // ------------------------------------------------------ the timer

    /** dtls1_start_timer: a timer that runs keeps its duration. */
    method StartTimer(now: TimeVal)
      requires now.usec < 1_000_000
      modifies this`nextTimeout, this`durationMs
      ensures Us(nextTimeout) == Us(now) + 1000 * durationMs && nextTimeout.usec < 1_000_000
      ensures durationMs == (if old(nextTimeout) == NOT_SET then initialMs else old(durationMs))
    {
      if nextTimeout.sec == 0 && nextTimeout.usec == 0 {
        durationMs := initialMs;
      }
      var sec, usec := now.sec + durationMs / 1000, now.usec + durationMs % 1000 * 1000;
      if usec >= 1_000_000 {
        sec, usec := sec + 1, usec - 1_000_000;
      }
      nextTimeout := TimeVal(sec, usec);
    }

    method StopTimer()
      modifies this`nextTimeout, this`durationMs, this`numTimeouts
      ensures nextTimeout == NOT_SET && durationMs == initialMs && numTimeouts == 0
    {
      numTimeouts, nextTimeout, durationMs := 0, NOT_SET, initialMs;
    }

    /** DTLSv1_get_timeout: whether a timer runs, and how much time is left. More seconds than an int
        holds are cut. */
    method GetTimeout(now: TimeVal) returns (running: bool, left: TimeVal)
      requires now.usec < 1_000_000 && nextTimeout.usec < 1_000_000
      ensures running <==> nextTimeout != NOT_SET
      ensures running ==> left.usec < 1_000_000 && left.sec <= 0x7FFF_FFFF && Us(left) <= TimeLeft(nextTimeout, now)
      ensures running && left.sec < 0x7FFF_FFFF ==> Us(left) == TimeLeft(nextTimeout, now)
    {
      hide Us;
      TimesInOrder(nextTimeout, now);
      NoTime();
      if nextTimeout.sec == 0 && nextTimeout.usec == 0 {
        return false, NOT_SET;
      }
      if nextTimeout.sec < now.sec || (nextTimeout.sec == now.sec && nextTimeout.usec <= now.usec) {
        return true, NOT_SET;
      }
      left := Minus(nextTimeout, now);
      SmallTime(left);
      // Avoid issues because of small divergences with socket timeouts.
      if left.sec == 0 && left.usec < 15_000 {
        left := NOT_SET;
      }
      if left.sec > 0x7FFF_FFFF {
        CutTime(left);
        left := TimeVal(0x7FFF_FFFF, left.usec);
      }
      return true, left;
    }

    /** dtls1_is_timer_expired. */
    method IsTimerExpired(now: TimeVal) returns (expired: bool)
      requires now.usec < 1_000_000 && nextTimeout.usec < 1_000_000
      ensures expired <==> Expired(now)
    {
      var running, left := GetTimeout(now);
      return running && !(left.sec > 0 || left.usec > 0);
    }

    /** The MTU after one more timeout than `timeouts`. */
    ghost function FallenBack(mtu: nat, timeouts: nat, fallback: int): nat
    {
      if timeouts >= 2 && !noQueryMtu && 228 <= fallback <= 0x4000_0000 then fallback else mtu
    }

    /** dtls1_check_timeout_num; `fallback` is the MTU that the transport falls back to. */
    method CheckTimeoutNum(fallback: int) returns (ok: bool)
      modifies this`numTimeouts, this`mtu
      ensures numTimeouts == old(numTimeouts) + 1 && (ok <==> old(numTimeouts) < 12)
      ensures mtu == FallenBack(old(mtu), old(numTimeouts), fallback)
    {
      numTimeouts := numTimeouts + 1;
      if numTimeouts > MTU_TIMEOUTS && !noQueryMtu {
        if 0 <= fallback <= 0x4000_0000 && fallback >= MIN_MTU {
          mtu := fallback;
        }
      }
      return numTimeouts <= MAX_TIMEOUTS;
    }

    /** dtls1_double_timeout, on 32-bit unsigned integers. */
    method DoubleTimeout()
      modifies this`durationMs
      ensures durationMs == Doubled(old(durationMs))
    {
      durationMs := durationMs * 2 % 0x1_0000_0000;
      if durationMs > MAX_TIMEOUT_MS {
        durationMs := MAX_TIMEOUT_MS;
      }
    }

    ghost predicate Expired(now: TimeVal)
      reads this
    {
      nextTimeout != NOT_SET && Us(nextTimeout) < Us(now) + 15_000
    }

    /** DTLSv1_handle_timeout: either nothing happens, or the connection fails after too many
        timeouts, or the flight is sent again from its start, whatever the cursor was. From the third
        timeout on the MTU that the transport falls back to is used. */
    method HandleTimeout(now: TimeVal, fallback: int, shutdown: bool, answer: int)
        returns (ret: int, ghost sent: seq<Piece>, ghost lost: seq<Piece>)
      requires Valid() && now.usec < 1_000_000
      modifies this`offset, this`written, this`mtu, this`transport, this`flushed, this`nextTimeout, this`durationMs, this`numTimeouts, this`faults
      ensures Valid() && |old(transport)| <= |transport| && transport[..|old(transport)|] == old(transport)
      ensures !old(Expired(now)) ==>
        && ret == 0 && At() == old(At()) && transport == old(transport) && mtu == old(mtu)
        && nextTimeout == old(nextTimeout) && durationMs == old(durationMs) && numTimeouts == old(numTimeouts)
      ensures old(Expired(now)) && old(numTimeouts) >= 12 ==> ret == -1 && transport == old(transport)
      ensures old(Expired(now)) && old(numTimeouts) < 12 ==>
        && mtu == (if shutdown then FallenBack(old(mtu), old(numTimeouts), fallback)
                   else Updated(FallenBack(old(mtu), old(numTimeouts), fallback), answer))
        && (!shutdown && CanSend(mtu) && faults == old(faults) ==> ret == 1)
        && Us(nextTimeout) == Us(now) + 1000 * durationMs
        && Tiles(flight, Cursor(0, 0), sent + lost, At())
        && CarryAll(flight, sent, Records(transport[|old(transport)|..]))
        && EpochsKept(messages, sent, Records(transport[|old(transport)|..])) && PacketsFit(transport[|old(transport)|..], mtu)
        && (ret == 1 ==> lost == [] && At() == Cursor(|flight|, 0) && faults == old(faults) && flushed == |transport|)
        && durationMs == Doubled(old(durationMs)) && numTimeouts == old(numTimeouts) + 1
    {
      hide Tiles, CarryAll, EpochsKept, PacketsFit, Doubled;
      sent, lost := [], [];
      // If no timer is expired, don't do anything.
      var expired := IsTimerExpired(now);
      if !expired {
        return 0, [], [];
      }
      var ok := CheckTimeoutNum(fallback);
      if !ok {
        return -1, [], [];
      }
      DoubleTimeout();
      StartTimer(now);
      ret, sent, lost := Retransmit(shutdown, answer);
    }

    /** dtls1_on_handshake_complete. */
    method OnHandshakeComplete()
      requires Valid()
      modifies this
      ensures Valid() && nextTimeout == NOT_SET && transport == old(transport)
      ensures flight == (if old(hasReply) then [] else old(flight))
    {
      StopTimer();
      if hasReply {
        ClearOutgoing();
      }
    }

    /** The part of dtls1_next_message about what was sent: a message that is read after a complete
        flight is the reply to it. */
    method MessageRead()
      requires Valid()
      modifies this`hasReply
      ensures Valid() && hasReply == (old(hasReply) || complete)
    {
      if complete {
        hasReply := true;
      }
    }

    /** Nothing more of the flight fits into the room that is left, or a message was cut to fit. */
    ghost predicate PacketIsFull(room: nat)
      reads this
    {
      written < |messages| ==> offset > 0 || !Fits(messages[written], room)
    }
  }

  /** How much of the message at the cursor is left. */
  function BodyLeft(flight: seq<Out>, c: Cursor): nat
  {
    if c.written < |flight| && flight[c.written].Handshake? && c.offset <= |flight[c.written].msg.body|
    then |flight[c.written].msg.body| - c.offset else 0
  }

  /** Pieces take the cursor forward. */
  lemma {:induction false} TilesAdvance(flight: seq<Out>, c: Cursor, pieces: seq<Piece>, d: Cursor)
    requires CursorOk(flight, c) && Tiles(flight, c, pieces, d)
    ensures CursorOk(flight, d)
    ensures pieces != [] ==> d.written > c.written || (d.written == c.written && BodyLeft(flight, d) < BodyLeft(flight, c))
    ensures pieces == [] ==> c == d
    decreases |pieces|
  {
    if pieces != [] {
      AfterOk(flight, c, pieces[0]);
      TilesAdvance(flight, After(flight, pieces[0]), pieces[1..], d);
    }
  }

  predicate PacketsFit(packets: seq<seq<Record>>, mtu: nat)
  {
    forall i :: 0 <= i < |packets| ==> packets[i] != [] && WireLen(packets[i]) <= mtu
  }

  lemma OneMorePacket(flight: seq<Out>, c: Cursor, sent: seq<Piece>, d: Cursor, pieces: seq<Piece>, e: Cursor,
                      packets: seq<seq<Record>>, packet: seq<Record>, mtu: nat)
    requires Tiles(flight, c, sent, d) && Tiles(flight, d, pieces, e)
    requires CarryAll(flight, sent, Records(packets)) && CarryAll(flight, pieces, packet)
    requires PacketsFit(packets, mtu) && packet != [] && WireLen(packet) <= mtu
    ensures Tiles(flight, c, sent + pieces, e) && CarryAll(flight, sent + pieces, Records(packets + [packet]))
    ensures PacketsFit(packets + [packet], mtu)
  {
    hide Tiles, Carries;
    TilesThen(flight, c, sent, d, pieces, e);
    assert (packets + [packet])[..|packets|] == packets;
  }

  lemma NoPackets(flight: seq<Out>, mtu: nat)
    ensures CarryAll(flight, [], Records([])) && PacketsFit([], mtu)
  {}

  lemma AtEnd(flight: seq<Out>, c: Cursor)
    requires CursorOk(flight, c) && c.written >= |flight|
    ensures c == Cursor(|flight|, 0)
  {}

  lemma NothingYet(flight: seq<Out>, c: Cursor)
    ensures Tiles(flight, c, [], c) && CarryAll(flight, [], []) && WireLen([]) == 0
  {}

  lemma Grow(flight: seq<Out>, c0: Cursor, pieces: seq<Piece>, c: Cursor, p: Piece, packet: seq<Record>, r: Record)
    requires Tiles(flight, c0, pieces, c) && PieceAt(flight, c, p)
    requires CarryAll(flight, pieces, packet) && Carries(flight, p, r)
    ensures Tiles(flight, c0, pieces + [p], After(flight, p)) && CarryAll(flight, pieces + [p], packet + [r])
    ensures WireLen(packet + [r]) == WireLen(packet) + r.wireLen
  {
    TilesOne(flight, c0, pieces, c, p);
    assert (packet + [r])[..|packet|] == packet;
  }

  lemma CcsIsOne(flight: seq<Out>, at: nat)
    ensures PieceOk(flight, Ccs(at)) ==> After(flight, Ccs(at)) == Cursor(at + 1, 0)
  {}

  lemma GrowEpochs(messages: seq<Outgoing>, pieces: seq<Piece>, p: Piece, rs: seq<Record>, r: Record)
    requires EpochsKept(messages, pieces, rs) && p.at < |messages| && r.epoch == messages[p.at].epoch
    ensures EpochsKept(messages, pieces + [p], rs + [r])
  {}

  lemma EpochsJoin(messages: seq<Outgoing>, sent: seq<Piece>, packets: seq<seq<Record>>, pieces: seq<Piece>, packet: seq<Record>)
    requires EpochsKept(messages, sent, Records(packets)) && EpochsKept(messages, pieces, packet)
    ensures EpochsKept(messages, sent + pieces, Records(packets + [packet]))
  {
    assert (packets + [packet])[..|packets|] == packets;
  }

  lemma NoEpochs(messages: seq<Outgoing>)
    ensures EpochsKept(messages, [], []) && EpochsKept(messages, [], Records([]))
  {}

  lemma RepresentsOk(m: Outgoing, o: Out)
    requires Represents(m, o)
    ensures OutOk(o)
  {}

  lemma CursorStays(flight: seq<Out>, c: Cursor, o: Out)
    requires CursorOk(flight, c) && OutOk(o)
    ensures CursorOk(flight + [o], c)
  {}

  function Doubled(ms: nat): (r: nat)
    ensures r <= 60000
  {
    var d := 2 * ms % 0x1_0000_0000;
    if d > 60000 then 60000 else d
  }

  /** The timeout after k retransmissions. */
  function Backoff(ms: nat, k: nat): nat
  {
    if k == 0 then ms else Doubled(Backoff(ms, k - 1))
  }

  /** `ms * 2^k`. */
  function ShiftedLeft(ms: nat, k: nat): nat
  {
    if k == 0 then ms else 2 * ShiftedLeft(ms, k - 1)
  }

  function Capped(ms: nat): nat { if ms <= 60000 then ms else 60000 }

  /** Exponential backoff with a ceiling (section 4.2.4.1 of RFC 6347), for every duration that can
      be configured. One above the ceiling is used once; the first doubling is in 32 bits and
      brings it to the ceiling, or near zero when it wraps around. */
  lemma {:induction false} BackoffDoubles(ms: nat, k: nat)
    requires ms < 0x1_0000_0000
    ensures k == 0 ==> Backoff(ms, k) == ms
    ensures k > 0 ==> Backoff(ms, k) == Capped(ShiftedLeft(2 * ms % 0x1_0000_0000, k - 1))
    ensures k > 0 && ms < 0x8000_0000 ==> Backoff(ms, k) == Capped(ShiftedLeft(ms, k))
  {
    hide Doubled, Capped;
    if k == 1 {
      FirstDoubling(ms);
    } else if k > 1 {
      BackoffDoubles(ms, k - 1);
      DoubledCapped(ShiftedLeft(2 * ms % 0x1_0000_0000, k - 2));
    }
    if k > 0 { ShiftedFromTwo(ms, k); }
  }

  lemma FirstDoubling(ms: nat)
    ensures Doubled(ms) == Capped(2 * ms % 0x1_0000_0000)
  {}

  lemma DoubledCapped(ms: nat)
    ensures Doubled(Capped(ms)) == Capped(2 * ms)
  {}

  lemma {:induction false} ShiftedFromTwo(ms: nat, k: nat)
    requires k > 0
    ensures ShiftedLeft(2 * ms, k - 1) == ShiftedLeft(ms, k)
  {
    if k > 1 { ShiftedFromTwo(ms, k - 1); }
  }

  lemma WholeParses(m: Message)
    requires MessageOk(m)
    ensures ParseFragment(FragBytes(m, 0, |m.body|)) == Fragment(FragHeader(m, 0, |m.body|), m.body, [])
  {
    hide HeaderBytes;
    assert m.body[0..|m.body|] == m.body;
    ParseInverts(FragHeader(m, 0, |m.body|), m.body, []);
    assert FragBytes(m, 0, |m.body|) == HeaderBytes(FragHeader(m, 0, |m.body|)) + m.body + [];
  }
}
