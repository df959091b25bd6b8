/** The outgoing flight: how a transmission cuts the queued messages into records. */
module DtlsFlight {
  import opened Bits
  import opened DtlsFragment

  /** A handshake message and the sequence number it was queued under. */
  datatype Message = Message(typ: byte, seqNo: nat, body: seq<byte>)

  /** An entry of outgoing_messages. */
  datatype Out = Handshake(msg: Message) | ChangeCipherSpec

  predicate MessageOk(m: Message) { m.seqNo < 0x1_0000 && |m.body| < 0x100_0000 }

  predicate OutOk(o: Out) { o.Handshake? ==> MessageOk(o.msg) }

  /** outgoing_written and outgoing_offset. */
  datatype Cursor = Cursor(written: nat, offset: nat)

  /** One sealed record: part of the body of a message, or a ChangeCipherSpec. */
  datatype Piece = Part(at: nat, off: nat, len: nat) | Ccs(at: nat)

  function FragHeader(m: Message, off: nat, len: nat): Header
  {
    Header(m.typ, |m.body|, m.seqNo, off, len)
  }

  /** The plaintext of a handshake record. */
  function FragBytes(m: Message, off: nat, len: nat): seq<byte>
    requires MessageOk(m) && off + len <= |m.body|
  {
    HeaderBytes(FragHeader(m, off, len)) + m.body[off..off + len]
  }

  predicate PieceOk(flight: seq<Out>, p: Piece)
  {
    p.at < |flight| && OutOk(flight[p.at]) &&
    match p
    case Ccs(at) => flight[at].ChangeCipherSpec?
    case Part(at, off, len) => flight[at].Handshake? && off + len <= |flight[at].msg.body|
  }

  /** The cursor behind a piece. */
  function After(flight: seq<Out>, p: Piece): Cursor
    requires PieceOk(flight, p)
  {
    if p.Part? && p.off + p.len < |flight[p.at].msg.body| then Cursor(p.at, p.off + p.len) else Cursor(p.at + 1, 0)
  }

  /** The piece starts at the cursor and makes progress. */
  predicate PieceAt(flight: seq<Out>, c: Cursor, p: Piece)
  {
    && PieceOk(flight, p) && p.at == c.written
    && (p.Part? ==> p.off == c.offset && (p.len > 0 || p.off == |flight[p.at].msg.body|))
  }

  /** `pieces` lead from cursor `c` to cursor `d` without gap or overlap. */
  predicate Tiles(flight: seq<Out>, c: Cursor, pieces: seq<Piece>, d: Cursor)
    decreases |pieces|
  {
    if pieces == [] then c == d
    else PieceAt(flight, c, pieces[0]) && Tiles(flight, After(flight, pieces[0]), pieces[1..], d)
  }

  lemma {:induction false} TilesThen(flight: seq<Out>, c: Cursor, a: seq<Piece>, d: Cursor, b: seq<Piece>, e: Cursor)
    requires Tiles(flight, c, a, d) && Tiles(flight, d, b, e)
    ensures Tiles(flight, c, a + b, e)
    decreases |a|
  {
    if a == [] {
      assert a + b == b;
    } else {
      assert (a + b)[1..] == a[1..] + b;
      TilesThen(flight, After(flight, a[0]), a[1..], d, b, e);
    }
  }

  /** What one piece sends of the message at position `w`, */
  function SentBy(flight: seq<Out>, p: Piece, w: nat): seq<byte>
  {
    if PieceOk(flight, p) && p.Part? && p.at == w then flight[w].msg.body[p.off..p.off + p.len] else []
  }

  /** and all of them, in the order in which it is sent. */
  function Sent(flight: seq<Out>, pieces: seq<Piece>, w: nat): seq<byte>
    decreases |pieces|
  {
    if pieces == [] then [] else SentBy(flight, pieces[0], w) + Sent(flight, pieces[1..], w)
  }

  predicate CursorOk(flight: seq<Out>, c: Cursor)
  {
    c.written <= |flight| && (forall i :: 0 <= i < |flight| ==> OutOk(flight[i])) &&
    (c.offset > 0 ==> c.written < |flight| && flight[c.written].Handshake? && c.offset < |flight[c.written].msg.body|)
  }

  lemma AfterOk(flight: seq<Out>, c: Cursor, p: Piece)
    requires CursorOk(flight, c) && PieceAt(flight, c, p)
    ensures CursorOk(flight, After(flight, p))
  {}

  /** What a transmission from cursor `c` has still to send of the message at position `w`. */
  function Left(flight: seq<Out>, c: Cursor, w: nat): seq<byte>
    requires CursorOk(flight, c) && w < |flight| && flight[w].Handshake?
  {
    if w < c.written then [] else if w == c.written then flight[w].msg.body[c.offset..] else flight[w].msg.body
  }

  /** A piece sends what lies before the next cursor. */
  lemma OneSent(flight: seq<Out>, c: Cursor, p: Piece, w: nat)
    requires CursorOk(flight, c) && PieceAt(flight, c, p) && w < |flight| && flight[w].Handshake?
    requires CursorOk(flight, After(flight, p))
    ensures Left(flight, c, w) == SentBy(flight, p, w) + Left(flight, After(flight, p), w)
  {
    if w == c.written {
      var b := flight[w].msg.body;
      assert b[c.offset..] == b[c.offset..c.offset + p.len] + b[c.offset + p.len..];
    }
  }

  /** A transmission that runs to the end of the flight sends each message body from the
      cursor on exactly once and in order. */
  lemma {:induction false} TilesSendBodies(flight: seq<Out>, c: Cursor, pieces: seq<Piece>, w: nat)
    requires CursorOk(flight, c) && Tiles(flight, c, pieces, Cursor(|flight|, 0))
    requires w < |flight| && flight[w].Handshake?
    ensures Sent(flight, pieces, w) == Left(flight, c, w)
    decreases |pieces|
  {
    hide CursorOk, SentBy, PieceOk;
    if pieces != [] {
      hide Left;
      AfterOk(flight, c, pieces[0]);
      TilesSendBodies(flight, After(flight, pieces[0]), pieces[1..], w);
      OneSent(flight, c, pieces[0], w);
    }
  }

  /** Every byte of every message from the cursor on lies in some piece, and every message
      (even an empty one) has a piece. */
  lemma {:induction false} TilesCover(flight: seq<Out>, c: Cursor, pieces: seq<Piece>, w: nat, i: nat) returns (k: nat)
    requires CursorOk(flight, c) && Tiles(flight, c, pieces, Cursor(|flight|, 0))
    requires w < |flight| && flight[w].Handshake? && (i < |flight[w].msg.body| || (i == 0 && flight[w].msg.body == []))
    requires w > c.written || (w == c.written && i >= c.offset)
    ensures k < |pieces| && PieceOk(flight, pieces[k]) && pieces[k].Part? && pieces[k].at == w
    ensures pieces[k].off <= i && (i < pieces[k].off + pieces[k].len || flight[w].msg.body == [])
    decreases |pieces|
  {
    var p := pieces[0];
    if w == c.written && (i < c.offset + p.len || flight[w].msg.body == []) {
      k := 0;
    } else {
      AfterOk(flight, c, p);
      k := TilesCover(flight, After(flight, p), pieces[1..], w, i);
      k := k + 1;
    }
  }
}
