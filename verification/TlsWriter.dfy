/** The TLS write path (ssl/s3_pkt.cc, ssl/s3_both.cc, ssl/ssl_buffer.cc): a flight of handshake
    records, a write buffer, short writes, and writes that are resumed. */
module TlsWriter {
  import opened Bits
  import opened TlsBuffer

  const CONTENT_CCS: byte := 20
  const CONTENT_ALERT: byte := 21
  const CONTENT_HANDSHAKE: byte := 22
  const CONTENT_APPLICATION_DATA: byte := 23
  const MAX_PLAIN: nat := 16384
  const INT_MAX: nat := 0x7FFF_FFFF
  const ALERT_FATAL: byte := 2

  /** What a sealed record protects. */
  datatype Record = Record(typ: byte, plain: seq<byte>)

  /** A call of do_ssl3_write: the address, the type and the bytes it was given. */
  datatype Call = Call(buf: int, typ: byte, data: seq<byte>)

  /** The application data protected by some records, in order. */
  function AppData(rs: seq<Record>): seq<byte>
  {
    if rs == [] then []
    else AppData(rs[..|rs| - 1]) + (if rs[|rs| - 1].typ == 23 then rs[|rs| - 1].plain else [])
  }

  /** The records of a handshake message: chunks of at most `max` bytes, at least one. */
  function Chunks(msg: seq<byte>, max: nat): (rs: seq<Record>)
    requires max > 0
    decreases |msg|
  {
    if |msg| <= max then [Record(CONTENT_HANDSHAKE, msg)]
    else [Record(CONTENT_HANDSHAKE, msg[..max])] + Chunks(msg[max..], max)
  }

  function Plain(rs: seq<Record>): seq<byte>
  {
    if rs == [] then [] else rs[0].plain + Plain(rs[1..])
  }

  /** The chunks carry the message, each byte once and in order, and are as long as may be. */
  lemma {:induction false} ChunksCarryMessage(msg: seq<byte>, max: nat)
    requires max > 0
    ensures Plain(Chunks(msg, max)) == msg && AreChunks(Chunks(msg, max), max)
    ensures msg != [] ==> Chunks(msg, max)[|Chunks(msg, max)| - 1].plain != []
    decreases |msg|
  {
    hide AreChunks;
    if |msg| <= max {
      assert Chunks(msg, max)[1..] == [];
      OneChunk(msg, max);
    } else {
      ChunksCarryMessage(msg[max..], max);
      assert Chunks(msg, max)[1..] == Chunks(msg[max..], max);
      MoreChunks(msg[..max], Chunks(msg[max..], max), max);
    }
  }

  /** At least one record, none longer than `max`, and only the last one shorter. */
  predicate AreChunks(rs: seq<Record>, max: nat)
  {
    && rs != [] && rs[|rs| - 1].typ == 22 && |rs[|rs| - 1].plain| <= max
    && forall i :: 0 <= i < |rs| - 1 ==> rs[i].typ == 22 && |rs[i].plain| == max
  }

  lemma OneChunk(chunk: seq<byte>, max: nat)
    requires |chunk| <= max
    ensures AreChunks([Record(CONTENT_HANDSHAKE, chunk)], max)
  {}

  lemma MoreChunks(chunk: seq<byte>, rs: seq<Record>, max: nat)
    requires AreChunks(rs, max) && |chunk| == max
    ensures AreChunks([Record(CONTENT_HANDSHAKE, chunk)] + rs, max)
  {}

  lemma AppDataThen(rs: seq<Record>, r: Record)
    ensures AppData(rs + [r]) == AppData(rs) + (if r.typ == 23 then r.plain else [])
  {
    assert (rs + [r])[..|rs|] == rs;
  }

  class Writer {
    const buffer: SSLBuffer
    // pending_flight and pending_flight_offset
    var hasFlight: bool
    var flight: seq<byte>
    var flightOffset: nat
    // the write in progress
    var wnum: nat
    var wpendTot: nat
    var wpendType: byte
    var wpendRet: nat
    var wpendBuf: int
    var wpendPending: bool
    var writeShutdown: bool
    var alertDispatch: bool
    var alert: seq<byte>
    var maxSendFragment: nat
    var maxOverhead: nat
    const partialWrite: bool
    const movingBuffer: bool
    var transport: seq<byte>        // what the transport has taken
    ghost var sealed: seq<byte>     // all sealed records, in the order of sealing
    ghost var records: seq<Record>  // and what they protect
    ghost var faults: nat           // how often sealing, memory, the transport or its flush has failed
    ghost var flushed: nat          // how many bytes the transport has flushed
    ghost var call: Call            // the call whose record is pending
    ghost var accepted: seq<byte>   // application data whose writing has been reported to the caller

    ghost predicate Valid()
      reads this, buffer
    {
      Shape() && (buffer.size == 0 ==> buffer.offset < 8)
    }

    ghost predicate Shape()
      reads this, buffer
    {
      && buffer.Valid() && flightOffset <= |flight| && (!hasFlight ==> flight == [])
      && 0 < maxSendFragment <= MAX_PLAIN && |alert| == 2
      && (wpendPending ==> wpendRet == wpendTot == |call.data| > 0 && wpendType == call.typ && wpendBuf == call.buf)
    }

    /** A call that is no repetition of the pending one: another type, fewer bytes, or, unless the
        buffer may move, another address. */
    ghost predicate BadRetry(typ: byte, n: nat, buf: int)
      reads this
    {
      typ != call.typ || n < |call.data| || (!movingBuffer && buf != call.buf)
    }

    /** Nothing has been sent, sealed or forgotten. */
    twostate predicate Untouched()
      requires old(Shape()) && Shape()
      reads this, buffer, buffer.buf
    {
      && transport == old(transport) && sealed == old(sealed) && records == old(records)
      && flight == old(flight) && flightOffset == old(flightOffset) && hasFlight == old(hasFlight)
      && wpendPending == old(wpendPending) && wpendTot == old(wpendTot) && wpendType == old(wpendType)
      && call == old(call) && buffer.Contents() == old(buffer.Contents())
    }

    /** What the transport took, the write buffer and the rest of the pending flight make up all
        sealed records in the order of sealing. */
    ghost predicate Ordered()
      requires Shape()
      reads this, buffer, buffer.buf
    {
      buffer.NoWrap() && transport + buffer.Contents() + flight[flightOffset..] == sealed
    }

    constructor (maxOverhead: nat, partialWrite: bool, movingBuffer: bool)
      ensures Valid() && Ordered() && fresh(buffer) && sealed == [] && records == [] && accepted == []
      ensures !wpendPending && wnum == 0 && buffer.size == 0 && !writeShutdown && maxSendFragment == 16384
    {
      buffer := new SSLBuffer();
      hasFlight, flight, flightOffset, wnum, wpendTot, wpendType, wpendRet, wpendBuf, wpendPending := false, [], 0, 0, 0, 0, 0, 0, false;
      writeShutdown, alertDispatch, alert, maxSendFragment := false, false, [0, 0], MAX_PLAIN;
      this.maxOverhead, this.partialWrite, this.movingBuffer := maxOverhead, partialWrite, movingBuffer;
      transport, sealed, records, accepted := [], [], [], [];
    }

    /** tls_seal_record: opaque bytes, at most the overhead longer than the plaintext. */
    method SealRecord(plain: seq<byte>) returns (ok: bool, bytes: seq<byte>)
      requires Shape()
      modifies this`faults
      ensures Shape() && (old(Ordered()) ==> Ordered())
      ensures |bytes| <= |plain| + maxOverhead && faults == old(faults) + (if ok then 0 else 1)
    {
      bytes :| |bytes| <= |plain| + maxOverhead;
      ok := *;
      faults := faults + (if ok then 0 else 1);
    }

    /** BIO_write: an error, or some of the bytes are taken. */
    method BioWrite(data: seq<byte>) returns (ret: int)
      requires data != []
      modifies this`transport, this`faults
      ensures ret <= |data|
      ensures if ret > 0 then transport == old(transport) + data[..ret] && faults == old(faults)
              else transport == old(transport) && faults == old(faults) + 1
    {
      ret :| ret <= |data|;
      if ret > 0 {
        transport := transport + data[..ret];
      } else {
        faults := faults + 1;
      }
    }

    method BioFlush() returns (ok: bool)
      requires Valid()
      modifies this`flushed, this`faults
      ensures Valid() && (old(Ordered()) ==> Ordered())
      ensures if ok then flushed == |transport| && faults == old(faults) else flushed == old(flushed) && faults == old(faults) + 1
    {
      ok := *;
      if ok {
        flushed := |transport|;
      } else {
        faults := faults + 1;
      }
    }

    // ------------------------------------------------------ the flight

    /** add_record_to_flight. */
    method AddRecordToFlight(typ: byte, plain: seq<byte>) returns (ok: bool)
      requires Valid()
      modifies this`hasFlight, this`flight, this`sealed, this`records, this`faults
      ensures Valid() && (old(Ordered()) ==> Ordered()) && faults >= old(faults)
      ensures records == old(records) + (if ok then [Record(typ, plain)] else [])
      ensures !ok ==> flight == old(flight) && sealed == old(sealed)
      ensures ok <==> faults == old(faults)
      // A record of another type is no progress of a write of application data, and no setback.
      ensures typ != 23 ==> AppData(records) == AppData(old(records))
    {
      hide AppData, Ordered;
      AppDataThen(records, Record(typ, plain));
      NewFlight();
      var bytes;
      ok, bytes := SealRecord(plain);
      if ok { JoinFlight(Record(typ, plain), bytes); }
    }

    method NewFlight()
      requires Valid()
      modifies this`hasFlight
      ensures Valid() && hasFlight && (old(Ordered()) ==> Ordered())
    {
      hasFlight := true;
    }

    method JoinFlight(r: Record, bytes: seq<byte>)
      requires Valid() && hasFlight
      modifies this`flight, this`sealed, this`records
      ensures Valid() && (old(Ordered()) ==> Ordered()) && records == old(records) + [r]
    {
      AppendToTail(transport + buffer.Contents(), flight, flightOffset, bytes);
      flight, sealed, records := flight + bytes, sealed + bytes, records + [r];
    }

    /** ssl3_add_message. */
    method AddMessage(msg: seq<byte>) returns (ok: bool)
      requires Valid()
      modifies this`hasFlight, this`flight, this`sealed, this`records, this`faults
      ensures Valid() && (old(Ordered()) ==> Ordered()) && faults >= old(faults)
      ensures ok ==> records == old(records) + Chunks(msg, maxSendFragment)
      ensures (ok <==> faults == old(faults)) && AppData(records) == AppData(old(records))
      ensures |old(records)| <= |records| && records[..|old(records)|] == old(records)
    {
      hide Ordered, Chunks, AppData;
      var rest := msg;
      var first := true;
      ghost var done: seq<Record> := [];
      while first || |rest| > 0
        invariant Valid() && (old(Ordered()) ==> Ordered())
        invariant records == old(records) + done && faults == old(faults) && AppData(records) == AppData(old(records))
        invariant first ==> rest == msg && done == []
        invariant first || |rest| > 0 ==> done + Chunks(rest, maxSendFragment) == Chunks(msg, maxSendFragment)
        invariant !first && rest == [] ==> done == Chunks(msg, maxSendFragment)
        decreases first, |rest|
      {
        var n := if |rest| > maxSendFragment then maxSendFragment else |rest|;
        var chunk := rest[..n];
        ChunkOff(done, rest, maxSendFragment);
        ok := AddRecordToFlight(CONTENT_HANDSHAKE, chunk);
        if !ok {
          return false;
        }
        done := done + [Record(CONTENT_HANDSHAKE, chunk)];
        rest, first := rest[n..], false;
      }
      return true;
    }

    /** ssl3_add_change_cipher_spec. */
    method AddChangeCipherSpec() returns (ok: bool)
      requires Valid()
      modifies this`hasFlight, this`flight, this`sealed, this`records, this`faults
      ensures Valid() && (old(Ordered()) ==> Ordered()) && faults >= old(faults)
      ensures records == old(records) + (if ok then [Record(20, [1])] else [])
      ensures (ok <==> faults == old(faults)) && AppData(records) == AppData(old(records))
    {
      ok := AddRecordToFlight(CONTENT_CCS, [1]);
    }

    /** One BIO_write of the write buffer, and Consume. */
    method WriteSome() returns (ret: int)
      requires Shape() && buffer.size > 0
      modifies this`transport, this`faults, buffer`offset, buffer`size, buffer`cap
      ensures Shape() && (old(Ordered()) ==> Ordered())
      ensures faults == old(faults) + (if ret > 0 then 0 else 1)
      ensures ret <= old(buffer.size) && (if ret > 0 then buffer.size == old(buffer.size) - ret else buffer.size == old(buffer.size))
      ensures ret <= 0 ==> transport == old(transport)
    {
      ghost var c, t, rest := buffer.Contents(), transport, flight[flightOffset..];
      ret := BioWrite(buffer.buf[buffer.offset..buffer.offset + buffer.size]);
      if ret > 0 {
        SplitJoin(t, c, ret, rest);
        ghost var safe := buffer.NoWrap();
        buffer.Consume(ret);
        assert safe ==> buffer.Contents() == c[ret..];
      }
    }

    /** ssl_write_buffer_flush, for TLS. */
    method WriteBufferFlush(hasBio: bool) returns (ret: int)
      requires Valid()
      modifies this`transport, this`faults, buffer
      ensures Valid() && (old(Ordered()) ==> Ordered()) && faults >= old(faults)
      ensures buffer.buf == old(buffer.buf) || buffer.buf == null
      ensures ret > 0 ==> ret == 1 && buffer.size == 0
      ensures ret > 0 <==> hasBio && faults == old(faults)
    {
      hide Ordered;
      if !hasBio {
        return -1;
      }
      while buffer.size > 0
        invariant Shape() && (old(Ordered()) ==> Ordered()) && buffer.buf == old(buffer.buf) && faults == old(faults)
        decreases buffer.size
      {
        ret := WriteSome();
        if ret <= 0 {
          return ret;
        }
      }
      ClearEmpty();
      return 1;
    }

    /** ssl3_flush_flight. Success means that everything sealed has been taken, provided there was a
        flight: without one nothing is done, even when the write buffer is not empty. */
    method FlushFlight(hasBio: bool) returns (ret: int)
      requires Valid()
      modifies this`transport, this`flushed, this`faults, this`hasFlight, this`flight, this`flightOffset, buffer
      ensures Valid() && (old(Ordered()) ==> Ordered()) && faults >= old(faults)
      ensures buffer.buf == old(buffer.buf) || buffer.buf == null
      ensures ret > 0 && old(hasFlight) ==> buffer.size == 0 && flight == [] && (old(Ordered()) ==> transport == sealed)
      ensures !old(hasFlight) ==> ret == 1 && transport == old(transport) && buffer.size == old(buffer.size)
      ensures writeShutdown && old(hasFlight) ==> ret == -1 && transport == old(transport)
      ensures ret > 0 ==> faults == old(faults) && (old(hasFlight) ==> flushed == |transport|)
      ensures old(hasFlight) && !writeShutdown && old(|flight|) <= 0x7FFF_FFFF && hasBio && faults == old(faults) ==> ret == 1
    {
      hide Ordered;
      if !hasFlight {
        return 1;
      }
      if writeShutdown || |flight| > INT_MAX {
        return -1;
      }
      if buffer.size > 0 {
        ret := WriteBufferFlush(hasBio);
        if ret <= 0 {
          return ret;
        }
      }
      ret := WriteFlight();
      if ret <= 0 {
        return ret;
      }
      var ok := BioFlush();
      if !ok {
        return -1;
      }
      FlightDone();
      return 1;
    }

    method FlightDone()
      requires Valid() && buffer.size == 0 && flightOffset == |flight|
      modifies this`hasFlight, this`flight, this`flightOffset
      ensures Valid() && (old(Ordered()) ==> Ordered() && transport == sealed) && flight == []
    {
      assert flight[flightOffset..] == [] && buffer.Contents() == [];
      hasFlight, flight, flightOffset := false, [], 0;
    }

    /** The loop of ssl3_flush_flight. */
    method WriteFlight() returns (ret: int)
      requires Valid() && buffer.size == 0
      modifies this`transport, this`flightOffset, this`faults
      ensures Valid() && (old(Ordered()) ==> Ordered()) && faults >= old(faults)
      ensures ret > 0 ==> flightOffset == |flight|
      ensures ret > 0 <==> faults == old(faults)
    {
      hide Ordered;
      while flightOffset < |flight|
        invariant Valid() && (old(Ordered()) ==> Ordered()) && faults == old(faults)
        decreases |flight| - flightOffset
      {
        ret := WriteFlightSome();
        if ret <= 0 {
          return ret;
        }
      }
      return 1;
    }

    /** One BIO_write of the rest of the flight. */
    method WriteFlightSome() returns (ret: int)
      requires Valid() && buffer.size == 0 && flightOffset < |flight|
      modifies this`transport, this`flightOffset, this`faults
      ensures Valid() && (old(Ordered()) ==> Ordered())
      ensures faults == old(faults) + (if ret > 0 then 0 else 1)
      ensures flightOffset == old(flightOffset) + (if ret > 0 then ret else 0)
    {
      ghost var t, rest := transport, flight[flightOffset..];
      assert buffer.Contents() == [];
      ret := BioWrite(flight[flightOffset..]);
      if ret > 0 {
        RestTaken(t, flight, flightOffset, ret);
        flightOffset := flightOffset + ret;
      }
    }

    // ------------------------------------------------------ records outside a flight

    function FlightLeft(): nat
      requires flightOffset <= |flight|
      reads this
    {
      |flight| - flightOffset
    }

    /** ssl3_write_pending: a bad retry is refused and changes nothing; a good one is refused only
        when the transport fails. */
    method WritePending(typ: byte, in_: seq<byte>, buf: int, hasBio: bool) returns (ret: int)
      requires Valid() && wpendPending
      modifies this`transport, this`faults, this`wpendPending, buffer
      ensures Valid() && (old(Ordered()) ==> Ordered()) && faults >= old(faults)
      ensures buffer.buf == old(buffer.buf) || buffer.buf == null
      ensures wpendPending <==> ret <= 0
      ensures BadRetry(typ, |in_|, buf) ==> ret == -1 && Untouched() && faults == old(faults)
      ensures !BadRetry(typ, |in_|, buf) && hasBio && faults == old(faults) ==> ret > 0
      ensures ret > 0 ==> ret == |call.data| && buffer.size == 0
    {
      hide Ordered;
      if wpendTot > |in_| || (!movingBuffer && wpendBuf != buf) || wpendType != typ {
        return -1;
      }
      ret := WriteBufferFlush(hasBio);
      if ret <= 0 {
        return ret;
      }
      MarkWritten();
      return wpendRet;
    }

    method MarkWritten()
      requires Valid()
      modifies this`wpendPending
      ensures Valid() && (old(Ordered()) ==> Ordered()) && !wpendPending
    {
      wpendPending := false;
    }

    /** The bytes of this write can never be lost to the buffer's 16-bit offset: they end within
        its first 65536 wherever they start, or there is no room for them and nothing is written. A
        write that goes on keeps what Ordered says of it. RoomKeepsRest shows that nothing weaker
        will do. */
    ghost predicate SafeWrite(n: nat)
      requires Valid()
      reads this, buffer
    {
      var maxOut := FlightLeft() + n + maxOverhead;
      wpendPending || maxOut <= 65529 || maxOut > 65535
    }

    /** The write buffer is empty, and there is room in it for the flight and `n` bytes. */
    ghost predicate HasRoom(n: nat)
      requires Shape()
      reads this, buffer
    {
      buffer.size == 0 && FlightLeft() + n + maxOverhead <= 0xFFFF
    }

    /** do_ssl3_write: what it seals, and what it leaves pending. A record is sealed once however
        often the call is repeated. A bad retry is refused and changes nothing; when nothing outside
        fails, a good one is done, and so is a first call for which there is room. */
    method DoWrite(typ: byte, in_: seq<byte>, buf: int, hasBio: bool) returns (ret: int)
      requires Valid()
      modifies this`transport, this`hasFlight, this`flight, this`flightOffset, this`sealed, this`records
      modifies this`wpendTot, this`wpendType, this`wpendRet, this`wpendBuf, this`wpendPending, buffer, buffer.buf
      modifies this`faults, this`call
      ensures Valid() && (old(Ordered() && SafeWrite(|in_|)) ==> Ordered())
      ensures buffer.buf == old(buffer.buf) || buffer.buf == null || fresh(buffer.buf)
      ensures FlightLeft() <= old(FlightLeft())
      ensures ret > 0 ==> !wpendPending && 0 < ret <= |in_| && buffer.size == 0
      ensures old(wpendPending && BadRetry(typ, |in_|, buf)) ==> ret == -1 && Untouched()
      ensures old(wpendPending && !BadRetry(typ, |in_|, buf)) && hasBio && faults == old(faults) ==> ret > 0
      ensures old(!wpendPending && HasRoom(|in_|)) && 0 < |in_| <= 16384 && hasBio && faults == old(faults) ==> ret == |in_|
      ensures wpendPending && !old(wpendPending) ==> call == Call(buf, typ, in_)
      ensures wpendPending && old(wpendPending) ==> call == old(call)
      ensures faults >= old(faults)
      ensures if old(wpendPending) then
          && records == old(records)
          && (ret > 0 ==> ret == old(wpendTot) && typ == old(wpendType))
          && (ret <= 0 ==> wpendPending && wpendTot == old(wpendTot) && wpendType == old(wpendType))
        else if ret > 0 || wpendPending then
          && records == old(records) + [Record(typ, in_)]
          && (if ret > 0 then ret == |in_| else wpendTot == |in_| && wpendType == typ)
        else
          records == old(records)
    {
      hide Ordered;
      // If there is still data from the previous record, flush it.
      if wpendPending {
        ret := WritePending(typ, in_, buf, hasBio);
        return;
      }
      if |in_| > MAX_PLAIN || buffer.size > 0 {
        return -1;
      }
      if |in_| == 0 {
        return 0;
      }
      var ok := PutRecord(typ, in_);
      if !ok {
        return -1;
      }
      SetPending(typ, in_, buf);
      assert !BadRetry(typ, |in_|, buf);
      ret := WritePending(typ, in_, buf, hasBio);
    }

    /** The rest of the pending flight and the sealed record go into the empty write buffer. */
    method PutRecord(typ: byte, in_: seq<byte>) returns (ok: bool)
      requires Valid() && !wpendPending && buffer.size == 0 && |in_| > 0
      modifies this`hasFlight, this`flight, this`flightOffset, this`sealed, this`records, this`faults, buffer, buffer.buf
      ensures Valid() && (old(Ordered() && SafeWrite(|in_|)) ==> Ordered()) && faults >= old(faults)
      ensures old(FlightLeft() + |in_| + maxOverhead <= 0xFFFF) && faults == old(faults) ==> ok
      ensures buffer.buf == old(buffer.buf) || fresh(buffer.buf)
      ensures FlightLeft() <= old(FlightLeft())
      ensures records == old(records) + (if ok then [Record(typ, in_)] else [])
    {
      hide Ordered;
      var maxOut := |in_| + maxOverhead + FlightLeft();
      ok := EnsureCap(maxOut);
      if !ok {
        return;
      }
      if hasFlight {
        MoveFlight();
      }
      ok := SealIntoBuffer(typ, in_);
    }

    method EnsureCap(maxOut: nat) returns (ok: bool)
      requires Valid() && maxOut > 0
      modifies buffer, this`faults
      ensures Valid() && buffer.size == old(buffer.size) && faults >= old(faults)
      ensures maxOut <= 0xFFFF && faults == old(faults) ==> ok
      ensures old(buffer.size == 0 && Ordered()) ==> Ordered()
      ensures buffer.buf == old(buffer.buf) || fresh(buffer.buf)
      ensures ok ==> buffer.cap >= maxOut && buffer.buf != null && maxOut <= MAX_U16
    {
      var memory: bool := *;
      var align: nat :| align < ALIGN_PAYLOAD;
      ok := buffer.EnsureCap(maxOut, memory, align);
      faults := faults + (if memory then 0 else 1);
    }

    /** The rest of the pending flight goes into the write buffer, before the record. */
    method MoveFlight()
      requires Valid() && buffer.size + FlightLeft() <= buffer.cap && buffer.size == 0 && buffer.buf != null
      modifies this`hasFlight, this`flight, this`flightOffset, buffer`size, buffer.buf
      ensures Valid() && (old(Ordered()) && buffer.offset + old(FlightLeft()) <= LIMIT ==> Ordered())
      ensures buffer.size == old(FlightLeft()) && flight == []
    {
      var rest := flight[flightOffset..];
      assert buffer.Contents() == [];
      buffer.Append(rest);
      hasFlight, flight, flightOffset := false, [], 0;
    }

    method SealIntoBuffer(typ: byte, in_: seq<byte>) returns (ok: bool)
      requires Valid() && buffer.size + |in_| + maxOverhead <= buffer.cap && buffer.buf != null && flight == []
      modifies this`sealed, this`records, this`faults, buffer`size, buffer.buf
      ensures Valid() && faults == old(faults) + (if ok then 0 else 1)
      ensures old(Ordered()) && buffer.offset + old(buffer.size) + |in_| + maxOverhead <= LIMIT ==> Ordered()
      ensures records == old(records) + (if ok then [Record(typ, in_)] else [])
    {
      hide Ordered;
      var bytes;
      ok, bytes := SealRecord(in_);
      if ok { JoinBuffer(Record(typ, in_), bytes); }
    }

    method JoinBuffer(r: Record, bytes: seq<byte>)
      requires Valid() && buffer.size + |bytes| <= buffer.cap && buffer.buf != null && flight == []
      modifies this`sealed, this`records, buffer`size, buffer.buf
      ensures Valid() && records == old(records) + [r]
      ensures old(Ordered()) && buffer.offset + old(buffer.size) + |bytes| <= LIMIT ==> Ordered()
    {
      ghost var c := buffer.Contents();
      buffer.Append(bytes);
      sealed, records := sealed + bytes, records + [r];
      assert transport + (c + bytes) + [] == (transport + c + []) + bytes;
    }

    method SetPending(typ: byte, in_: seq<byte>, buf: int)
      requires Valid() && |in_| > 0
      modifies this`wpendTot, this`wpendType, this`wpendRet, this`wpendBuf, this`wpendPending, this`call
      ensures Valid() && (old(Ordered()) ==> Ordered())
      ensures wpendPending && wpendTot == |in_| && wpendType == typ && call == Call(buf, typ, in_)
    {
      call := Call(buf, typ, in_);
      wpendTot, wpendBuf, wpendType, wpendRet, wpendPending := |in_|, buf, typ, |in_|, true;
    }

    // ------------------------------------------------------ application data

    /** The write of `in_` has come this far: what has been sealed since it began is a prefix of
        `in_`, of which `tot` bytes are written and the rest is the pending record. */
    ghost predicate ProgressAt(in_: seq<byte>, tot: nat)
      reads this
    {
      && tot + PendingApp() <= |in_|
      && AppData(records) == accepted + in_[..tot + PendingApp()]
    }

    ghost function PendingApp(): nat
      reads this
    {
      if wpendPending && wpendType == 23 then wpendTot else 0
    }

    /** The next record of a write is no repetition of the pending one. */
    ghost predicate BadAppRetry(n: nat, buf: int)
      reads this
    {
      wpendPending && n >= wnum && BadRetry(23, FirstChunk(n - wnum), buf + wnum)
    }

    /** The write can go on or begin. */
    ghost predicate CanWrite(n: nat, buf: int)
      requires Shape()
      reads this, buffer
    {
      && !writeShutdown && n > wnum && Goes(FirstChunk(n - wnum), buf + wnum)
      && FlightLeft() + 16384 + maxOverhead <= 0xFFFF
    }

    /** ssl3_write_app_data, without early data. `buf` stands for the address of the data. Over any
        sequence of calls that repeat a write with the same bytes or more, a call that returns
        k > 0 has had exactly the first k bytes sealed, each once and in order. A call that repeats
        the pending one badly is refused and changes nothing; a call that can be done is done when
        nothing outside fails. */
    method WriteAppData(in_: seq<byte>, buf: int, hasBio: bool) returns (ret: int)
      requires Valid()
      modifies this`transport, this`hasFlight, this`flight, this`flightOffset, this`sealed, this`records, this`wnum, this`accepted
      modifies this`wpendTot, this`wpendType, this`wpendRet, this`wpendBuf, this`wpendPending, buffer, buffer.buf
      modifies this`faults, this`call
      ensures Valid()
      ensures old(Ordered() && FlightLeft() + 16384 + maxOverhead <= 65529) ==> Ordered()
      ensures buffer.buf == old(buffer.buf) || buffer.buf == null || fresh(buffer.buf)
      ensures ret > 0 && old(ProgressAt(in_, wnum)) ==>
        && ret <= |in_| && (ret == |in_| || partialWrite)
        && accepted == old(accepted) + in_[..ret] && AppData(records) == accepted && wnum == 0 && !wpendPending
      ensures ret <= 0 && old(ProgressAt(in_, wnum)) ==> accepted == old(accepted) && ProgressAt(in_, wnum)
      ensures old(writeShutdown || BadAppRetry(|in_|, buf)) ==>
        ret == -1 && Untouched() && accepted == old(accepted) && wnum == old(wnum)
      ensures !old(writeShutdown) && |in_| < old(wnum) ==> ret == -1 && Untouched() && accepted == old(accepted) && wnum == 0
      // What is sealed is cut into records as long as may be.
      ensures InChunks(old(records), records, maxSendFragment, false)
      ensures partialWrite ==> |records| <= |old(records)| + 1
      ensures old(CanWrite(|in_|, buf)) && hasBio && faults == old(faults) ==> 0 < ret <= |in_| && (ret == |in_| || partialWrite)
    {
      hide Ordered, AppData, ProgressAt, InChunks;
      NoChunks(records, maxSendFragment);
      if ProgressAt(in_, wnum) { ProgressFits(in_, wnum, in_); }
      if writeShutdown {
        return -1;
      }
      var tot := wnum;
      SetWnum(0);
      if |in_| < tot {
        return -1;
      }
      ret := WriteRecords(in_, tot, buf, hasBio);
      if ret <= 0 { return; }
      Accept(in_, ret);
    }

    /** The loop of ssl3_write_app_data, of which `start` bytes are written. */
    method WriteRecords(in_: seq<byte>, start: nat, buf: int, hasBio: bool) returns (ret: int)
      requires Valid() && wnum == 0 && start <= |in_|
      modifies this`transport, this`hasFlight, this`flight, this`flightOffset, this`sealed, this`records, this`wnum
      modifies this`wpendTot, this`wpendType, this`wpendRet, this`wpendBuf, this`wpendPending, buffer, buffer.buf
      modifies this`faults, this`call
      ensures Valid()
      ensures old(Ordered() && FlightLeft() + 16384 + maxOverhead <= 65529) ==> Ordered()
      ensures buffer.buf == old(buffer.buf) || buffer.buf == null || fresh(buffer.buf)
      ensures ret > 0 ==> wnum == 0 && !wpendPending && start < ret <= |in_| && (ret == |in_| || partialWrite)
      ensures old(ProgressAt(in_, start)) ==> ProgressAt(in_, if ret > 0 then ret else wnum)
      ensures InChunks(old(records), records, maxSendFragment, false)
      ensures partialWrite ==> |records| <= |old(records)| + 1
      ensures old(wpendPending && BadRetry(23, FirstChunk(|in_| - start), buf + start))
        ==> (ret == -1 && Untouched() && wnum == start)
      ensures start < |in_| && old(Goes(FirstChunk(|in_| - start), buf + start) && FlightLeft() + 16384 + maxOverhead <= 0xFFFF) && hasBio && faults == old(faults) ==> ret > 0
    {
      hide Ordered, AppData, ProgressAt, InChunks;
      NoChunks(records, maxSendFragment);
      ghost var bad := wpendPending && BadRetry(23, FirstChunk(|in_| - start), buf + start);
      var n, tot := |in_| - start, start;
      while true
        invariant Valid() && n >= 0 && tot + n == |in_| && wnum == 0 && tot >= start
        invariant buffer.buf == old(buffer.buf) || buffer.buf == null || fresh(buffer.buf)
        invariant FlightLeft() <= old(FlightLeft()) && faults >= old(faults)
        invariant old(Ordered() && FlightLeft() + 16384 + maxOverhead <= 65529) ==> Ordered()
        invariant old(ProgressAt(in_, start)) ==> ProgressAt(in_, tot)
        invariant tot == start ==> unchanged(this) && unchanged(buffer) && (buffer.buf != null ==> unchanged(buffer.buf))
        invariant tot > start ==> !wpendPending && buffer.size == 0 && n > 0 && !bad && !partialWrite
        invariant InChunks(old(records), records, maxSendFragment, true)
        decreases n
      {
        var nw := if n > maxSendFragment then maxSendFragment else n;
        ret := WriteChunk(in_, tot, nw, buf, hasBio, old(records));
        if ret <= 0 {
          SetWnum(tot);
          return ret;
        }
        if ret == n || partialWrite {
          return tot + ret;
        }
        n, tot := n - ret, tot + ret;
      }
    }

    /** A record of `n` bytes at address `at` can be written. */
    ghost predicate Goes(n: nat, at: int)
      requires Shape()
      reads this, buffer
    {
      if wpendPending then !BadRetry(23, n, at) else HasRoom(16384)
    }

    ghost function FirstChunk(n: nat): nat
      reads this
    {
      if n > maxSendFragment then maxSendFragment else n
    }

    /** A retry with more data goes on where the write stood, and a write that is done leaves any
        other write at its start. */
    lemma ProgressFits(in_: seq<byte>, tot: nat, longer: seq<byte>)
      requires ProgressAt(in_, tot)
      ensures tot <= |in_|
      ensures in_ <= longer ==> ProgressAt(longer, tot)
      ensures accepted == AppData(records) ==> ProgressAt(longer, 0) || wpendPending
    {
      if in_ <= longer {
        assert longer[..tot + PendingApp()] == in_[..tot + PendingApp()];
      }
    }

    /** One record of the loop. */
    method WriteChunk(in_: seq<byte>, tot: nat, nw: nat, buf: int, hasBio: bool, ghost before: seq<Record>) returns (ret: int)
      requires Valid() && tot + nw <= |in_| && nw <= maxSendFragment && InChunks(before, records, maxSendFragment, true)
      modifies this`transport, this`hasFlight, this`flight, this`flightOffset, this`sealed, this`records
      modifies this`wpendTot, this`wpendType, this`wpendRet, this`wpendBuf, this`wpendPending, buffer, buffer.buf
      modifies this`faults, this`call
      ensures Valid()
      ensures old(Ordered() && FlightLeft() + 16384 + maxOverhead <= 65529) ==> Ordered()
      ensures buffer.buf == old(buffer.buf) || buffer.buf == null || fresh(buffer.buf)
      ensures FlightLeft() <= old(FlightLeft()) && ret <= nw && faults >= old(faults)
      ensures ret > 0 ==> !wpendPending && buffer.size == 0
      ensures old(ProgressAt(in_, tot)) ==> ProgressAt(in_, if ret > 0 then tot + ret else tot)
      ensures InChunks(before, records, maxSendFragment, false) && |records| <= |old(records)| + 1
      ensures ret > 0 && (ret < nw || nw == maxSendFragment) ==> InChunks(before, records, maxSendFragment, true)
      ensures old(wpendPending && BadRetry(23, nw, buf + tot)) ==> ret == -1 && Untouched()
      ensures nw > 0 && old(Goes(nw, buf + tot)) && hasBio && faults == old(faults) ==> ret > 0
    {
      hide Ordered, AppData, InChunks, BadRetry;
      var chunk := in_[tot..tot + nw];
      AppDataThen(records, Record(CONTENT_APPLICATION_DATA, chunk));
      assert in_[..tot + nw] == in_[..tot] + chunk;
      ret := DoWrite(CONTENT_APPLICATION_DATA, chunk, buf + tot, hasBio);
      OneMoreChunk(before, old(records), records, maxSendFragment, chunk);
    }

    method SetWnum(tot: nat)
      requires Valid()
      modifies this`wnum
      ensures Valid() && wnum == tot && (old(Ordered()) ==> Ordered()) && Untouched()
      ensures forall x, t :: old(ProgressAt(x, t)) ==> ProgressAt(x, t)
    {
      wnum := tot;
    }

    /** The caller is told that `done` bytes are written. */
    ghost method Accept(in_: seq<byte>, done: nat)
      requires Valid() && !wpendPending && done <= |in_|
      modifies this`accepted
      ensures Valid() && accepted == old(accepted) + in_[..done] && (old(Ordered()) ==> Ordered())
      ensures old(ProgressAt(in_, done)) ==> AppData(records) == accepted
    {
      hide AppData;
      accepted := accepted + in_[..done];
    }

    // ------------------------------------------------------ alerts

    /** ssl3_dispatch_alert. */
    method DispatchAlert(hasBio: bool) returns (ret: int)
      requires Valid()
      modifies this`transport, this`hasFlight, this`flight, this`flightOffset, this`sealed, this`records, this`alertDispatch
      modifies this`wpendTot, this`wpendType, this`wpendRet, this`wpendBuf, this`wpendPending, buffer, buffer.buf
      modifies this`faults, this`flushed, this`call
      ensures Valid() && (old(Ordered() && SafeWrite(2)) ==> Ordered())
      ensures ret > 0 ==> ret == 1 && !alertDispatch && !wpendPending
      ensures ret <= 0 ==> alertDispatch == old(alertDispatch)
      // The alert is sealed once, even when sending it has to be resumed; and it does not
      // overtake a write of other data.
      ensures old(wpendPending) ==> records == old(records) && (ret > 0 ==> old(wpendType) == 21)
      ensures !old(wpendPending) && ret > 0 ==> records == old(records) + [Record(21, alert)]
      ensures old(!wpendPending && HasRoom(2)) && hasBio && faults == old(faults) ==> ret == 1
      ensures ret > 0 && alert[0] == 2 && faults == old(faults) ==> flushed == |transport|
    {
      ret := DoWrite(CONTENT_ALERT, alert, -1, hasBio);
      if ret <= 0 {
        return ret;
      }
      AlertDone();
      // If the alert is fatal, flush the BIO now.
      if alert[0] == ALERT_FATAL {
        var _ := BioFlush();
      }
      return 1;
    }

    method AlertDone()
      requires Valid()
      modifies this`alertDispatch
      ensures Valid() && !alertDispatch && (old(Ordered()) ==> Ordered())
    {
      alertDispatch := false;
    }

    /** ssl_send_alert. */
    method SendAlert(level: byte, desc: byte, hasBio: bool) returns (ret: int)
      requires Valid()
      modifies this`transport, this`hasFlight, this`flight, this`flightOffset, this`sealed, this`records, this`alertDispatch
      modifies this`wpendTot, this`wpendType, this`wpendRet, this`wpendBuf, this`wpendPending, buffer, buffer.buf
      modifies this`faults, this`flushed, this`call
      modifies this`writeShutdown, this`alert
      ensures Valid() && writeShutdown && (old(Ordered() && SafeWrite(2)) ==> Ordered())
      // After a closing alert there is no second one (and WriteAppData and FlushFlight refuse).
      ensures old(writeShutdown) ==> ret == -1 && records == old(records) && transport == old(transport)
      ensures !old(writeShutdown) ==> alert == [level, desc] && (alertDispatch || ret == 1)
      ensures old(buffer.size > 0) ==>
        ret == -1 && records == old(records) && transport == old(transport) && wpendPending == old(wpendPending)
      ensures old(!writeShutdown && !wpendPending && HasRoom(2)) && hasBio && faults == old(faults) ==> ret == 1
    {
      if writeShutdown {
        return -1;
      }
      CloseWith([level, desc]);
      if buffer.size == 0 {
        ret := DispatchAlert(hasBio);
        return ret;
      }
      return -1;
    }

    method CloseWith(a: seq<byte>)
      requires Valid() && |a| == 2
      modifies this`writeShutdown, this`alert, this`alertDispatch
      ensures Valid() && writeShutdown && alert == a && alertDispatch && (old(Ordered()) ==> Ordered())
      ensures old(SafeWrite(2)) ==> SafeWrite(2)
    {
      writeShutdown, alertDispatch, alert := true, true, a;
    }

    method ClearEmpty()
      requires Shape() && buffer.size == 0
      modifies buffer
      ensures Valid() && (old(Ordered()) ==> Ordered()) && buffer.buf == null && buffer.size == 0
    {
      assert buffer.Contents() == [];
      buffer.Clear();
    }
  }

  lemma ChunkOff(done: seq<Record>, rest: seq<byte>, max: nat)
    requires max > 0
    ensures |rest| <= max ==> rest[..|rest|] == rest && Chunks(rest, max) == [Record(CONTENT_HANDSHAKE, rest)]
    ensures |rest| > max ==>
      done + Chunks(rest, max) == (done + [Record(CONTENT_HANDSHAKE, rest[..max])]) + Chunks(rest[max..], max)
  {}

  lemma AppendToTail(t: seq<byte>, f: seq<byte>, off: nat, bytes: seq<byte>)
    requires off <= |f|
    ensures t + (f + bytes)[off..] == t + f[off..] + bytes
  {
    assert (f + bytes)[off..] == f[off..] + bytes;
  }

  /** What has been added are records of application data as long as may be, with the last one, unless
      `full`, possibly shorter. */
  ghost predicate InChunks(before: seq<Record>, rs: seq<Record>, max: nat, full: bool)
  {
    && |before| <= |rs| && rs[..|before|] == before
    && forall i :: |before| <= i < |rs| ==>
      rs[i].typ == 23 && 0 < |rs[i].plain| <= max && (full || i + 1 < |rs| ==> |rs[i].plain| == max)
  }

  lemma NoChunks(rs: seq<Record>, max: nat)
    ensures InChunks(rs, rs, max, true) && InChunks(rs, rs, max, false)
  {}

  lemma OneMoreChunk(before: seq<Record>, mid: seq<Record>, rs: seq<Record>, max: nat, chunk: seq<byte>)
    requires InChunks(before, mid, max, true) && |chunk| <= max
    requires rs == mid || (chunk != [] && rs == mid + [Record(23, chunk)])
    ensures InChunks(before, rs, max, false) && (rs == mid || |chunk| == max ==> InChunks(before, rs, max, true))
  {
    if rs != mid { assert rs[..|before|] == mid[..|before|]; }
  }

  lemma RestTaken(t: seq<byte>, flight: seq<byte>, off: nat, n: nat)
    requires off + n <= |flight|
    ensures t + flight[off..][..n] + [] + flight[off + n..] == t + [] + flight[off..]
  {
    assert flight[off..] == flight[off..][..n] + flight[off + n..];
  }

  lemma SplitJoin(t: seq<byte>, c: seq<byte>, n: nat, rest: seq<byte>)
    requires n <= |c|
    ensures (t + c[..n]) + c[n..] + rest == t + c + rest
  {
    assert c[..n] + c[n..] == c;
  }
}
