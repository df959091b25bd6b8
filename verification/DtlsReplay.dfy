/** The DTLS record layer's replay protection (RFC 6347, section 4.1.2.6; ssl/dtls_record.cc,
    ssl/dtls_method.cc): a 64-bit window that stands for the set of all recorded numbers. */
module DtlsReplay {
  import opened Options
  import opened Bits
  import opened DtlsFragment

  const WINDOW: nat := 64
  const RECORD_HEADER_LENGTH: nat := 13
  const VERSION_MAJOR: nat := 0xFE
  const MAX_PLAIN: nat := 16384
  const MAX_ENCRYPTED: nat := 16384 + 256 + 64
  const CONTENT_ALERT: byte := 21

  // ------------------------------------------------------ big-endian numbers

  function U64(s: seq<byte>): nat
  {
    if s == [] then 0 else U64(s[..|s| - 1]) * 0x100 + s[|s| - 1]
  }

  function Room(i: nat): nat { Pow2(8 * i) }

  lemma RoomGrows(i: nat)
    requires i < 8
    ensures Room(i) * 0x100 == Room(i + 1) <= Pow2(64)
  {
    hide Pow2;
    EightMore(8 * i);
    assert 8 * (i + 1) == 8 * i + 8;
    PowLe(8 * i + 8, 64);
  }

  lemma EightMore(n: nat)
    ensures Pow2(n + 8) == 0x100 * Pow2(n)
  {
    assert Pow2(n + 1) == 2 * Pow2(n);
    assert Pow2(n + 2) == 4 * Pow2(n);
    assert Pow2(n + 3) == 8 * Pow2(n);
    assert Pow2(n + 4) == 0x10 * Pow2(n);
    assert Pow2(n + 5) == 0x20 * Pow2(n);
    assert Pow2(n + 6) == 0x40 * Pow2(n);
    assert Pow2(n + 7) == 0x80 * Pow2(n);
  }

  lemma {:induction false} PowLe(n: nat, m: nat)
    requires n <= m
    ensures Pow2(n) <= Pow2(m)
    decreases m
  {
    if n < m { PowLe(n, m - 1); }
  }

  /** One round of the loop: `ret <<= 8; ret |= in[i];`. */
  lemma ShiftInByte(w: nat, b: byte)
    requires w * 0x100 < Pow2(64)
    ensures BitOr(ShiftLeft(w, 8, 64), b) == w * 0x100 + b
  {
    assert Pow2(8) == 0x100 by { assert Pow2(8) == 0x100 * Pow2(0); }
    hide Pow2, BitOr, ShiftLeft;
    ShiftByte(w);
    BitOrDisjoint(b, w, 8);
    BitOrCommutes(b, w * 0x100);
  }

  lemma ShiftByte(w: nat)
    requires w * 0x100 < Pow2(64)
    ensures ShiftLeft(w, 8, 64) == w * 0x100
  {
    hide Pow2, ShiftLeft;
    ShiftOnce(w, 0, w);
    ShiftOnce(w, 1, w * 2);
    ShiftOnce(w, 2, w * 4);
    ShiftOnce(w, 3, w * 8);
    ShiftOnce(w, 4, w * 0x10);
    ShiftOnce(w, 5, w * 0x20);
    ShiftOnce(w, 6, w * 0x40);
    ShiftOnce(w, 7, w * 0x80);
  }

  lemma {:induction false} BitOrCommutes(a: nat, b: nat)
    ensures BitOr(a, b) == BitOr(b, a)
    decreases a + b
  {
    if a != 0 && b != 0 { BitOrCommutes(a / 2, b / 2); }
  }

  lemma ShiftOnce(w: nat, k: nat, x: nat)
    requires k == 0 ==> x == w
    requires k > 0 ==> ShiftLeft(w, k, 64) == x
    requires 2 * x < Pow2(64)
    ensures ShiftLeft(w, k + 1, 64) == 2 * x
  {
    hide Low, Pow2;
    LowIsModulo(2 * x, 64);
  }

  /** to_u64_be. */
  method ToU64(s: seq<byte>) returns (ret: nat)
    requires |s| == 8
    ensures ret == U64(s) < Pow2(64)
  {
    hide ShiftLeft, BitOr, Pow2, Room;
    ret := 0;
    assert U64(s[..0]) == 0 && Room(0) == 1 by { RoomZero(); }
    for i := 0 to 8
      invariant ret == U64(s[..i]) < Room(i)
    {
      RoomGrows(i);
      ShiftInByte(ret, s[i]);
      assert s[..i + 1][..i] == s[..i];
      ret := BitOr(ShiftLeft(ret, 8, 64), s[i]);
    }
    assert s[..8] == s;
    RoomGrows(7);
  }

  lemma RoomZero()
    ensures U64([]) == 0 && Room(0) == 1
  {}

  // ------------------------------------------------------ the window as a set

  /** Every number recorded since the last change of epoch, and the largest of them. */
  datatype Seen = Seen(max: nat, all: set<nat>)

  const Nothing: Seen := Seen(0, {})

  predicate SeenOk(s: Seen)
  {
    (forall u :: u in s.all ==> u <= s.max) && (if s.all == {} then s.max == 0 else s.max in s.all)
  }

  predicate Discards(s: Seen, u: nat) { u in s.all || u + 64 <= s.max }

  function Recorded(s: Seen, u: nat): (s': Seen)
    requires SeenOk(s)
    ensures SeenOk(s')
  {
    Seen(if u > s.max then u else s.max, s.all + {u})
  }

  /** The word `bits` shows which of the last 64 numbers have been recorded. */
  ghost predicate Shows(bits: nat, s: Seen)
  {
    forall k: nat :: Bit(bits, k) <==> k < WINDOW && k <= s.max && s.max - k in s.all
  }

  lemma ZeroShowsNothing(s: Seen)
    requires s.all == {}
    ensures Shows(0, s)
  {
    hide Bit;
    forall k: nat ensures !Bit(0, k) { ZeroBits(k); }
  }

  /** Sliding the window forward. */
  lemma SlideShows(bits: nat, s: Seen, u: nat)
    requires SeenOk(s) && Shows(bits, s) && u > s.max
    ensures Shows(if u - s.max >= WINDOW then 0 else ShiftLeft(bits, u - s.max, WINDOW), Seen(u, s.all))
  {
    hide Bit, ShiftLeft;
    var shift := u - s.max;
    if shift >= WINDOW {
      forall k: nat ensures !Bit(0, k) { ZeroBits(k); }
    } else {
      forall j: nat ensures Bit(ShiftLeft(bits, shift, WINDOW), j) <==> j < WINDOW && j <= u && u - j in s.all {
        BitOfShift(bits, shift, WINDOW, j);
        if j >= shift { assert u - j == s.max - (j - shift); }
      }
    }
  }

  /** Marking a number inside the window. */
  lemma MarkShows(bits: nat, s: Seen, u: nat)
    requires Shows(bits, s) && u <= s.max < u + WINDOW
    ensures Shows(BitOr(bits, Pow2(s.max - u)), Seen(s.max, s.all + {u}))
  {
    hide Bit, BitOr, Pow2;
    var w, all := BitOr(bits, Pow2(s.max - u)), s.all + {u};
    forall k: nat ensures Bit(w, k) <==> k < WINDOW && k <= s.max && s.max - k in all {
      BitOfOr(bits, Pow2(s.max - u), k);
      BitOfPow2(s.max - u, k);
    }
  }

  datatype OpenResult =
    | CloseNotify | Partial | Discard | Overflow
    | Alert(alert: seq<byte>)
    | Success(typ: byte, plain: seq<byte>)

  /** A parsed record header. */
  datatype RecordHeader = BadRecord | Parsed(typ: byte, version: nat, sequence: seq<byte>, body: seq<byte>, consumed: nat)

  function ParseRecord(s: seq<byte>): (p: RecordHeader)
    ensures p.Parsed? ==> |p.sequence| == 8 && p.consumed <= |s|
  {
    if |s| < RECORD_HEADER_LENGTH then BadRecord
    else
      var len := FromU16(s[11], s[12]);
      if |s| < RECORD_HEADER_LENGTH + len || len > MAX_ENCRYPTED then BadRecord
      else
        Parsed(s[0], FromU16(s[1], s[2]), s[3..11], s[RECORD_HEADER_LENGTH..RECORD_HEADER_LENGTH + len],
               RECORD_HEADER_LENGTH + len)
  }

  /** Where the parts of a record lie (section 4.1 of RFC 6347): type, version, epoch, the 48-bit
      sequence number, the length and as many bytes; and which records are taken to be one. */
  lemma RecordLayout(s: seq<byte>)
    ensures ParseRecord(s).Parsed? <==>
      |s| >= 13 && 0x100 * (s[11] as int) + s[12] <= 16384 + 320 && |s| >= 13 + 0x100 * (s[11] as int) + s[12]
    ensures ParseRecord(s).Parsed? ==>
      var p := ParseRecord(s);
      && p.typ == s[0] && p.version == 0x100 * (s[1] as int) + s[2] && EpochOf(p.sequence) == 0x100 * (s[3] as int) + s[4]
      && U64(p.sequence) == 0x1_0000_0000_0000 * EpochOf(p.sequence)
          + 0x100_0000_0000 * (s[5] as int) + 0x1_0000_0000 * (s[6] as int) + 0x100_0000 * (s[7] as int) + 0x1_0000 * (s[8] as int) + 0x100 * (s[9] as int) + s[10]
      && |p.body| == 0x100 * (s[11] as int) + s[12] && p.body == s[13..13 + |p.body|] && p.consumed == 13 + |p.body|
  {
    var p := ParseRecord(s);
    if p.Parsed? { EightBytes(p.sequence); }
  }

  lemma EightBytes(q: seq<byte>)
    requires |q| == 8
    ensures U64(q) == 0x1_0000_0000_0000 * (0x100 * (q[0] as int) + q[1])
      + 0x100_0000_0000 * (q[2] as int) + 0x1_0000_0000 * (q[3] as int) + 0x100_0000 * (q[4] as int) + 0x1_0000 * (q[5] as int) + 0x100 * (q[6] as int) + q[7]
  {
    hide U64;
    OneMoreByte(q, 0);
    OneMoreByte(q, 1);
    OneMoreByte(q, 2);
    OneMoreByte(q, 3);
    OneMoreByte(q, 4);
    OneMoreByte(q, 5);
    OneMoreByte(q, 6);
    OneMoreByte(q, 7);
    assert q[..8] == q;
  }

  lemma OneMoreByte(q: seq<byte>, i: nat)
    requires i < |q|
    ensures U64(q[..i + 1]) == 0x100 * U64(q[..i]) + (q[i] as int) && U64(q[..0]) == 0
  {
    assert q[..i + 1][..i] == q[..i];
  }

  /** The reading side of the record layer: DTLS1_BITMAP and r_epoch. */
  class Reader {
    var bits: nat
    var max: nat
    var epoch: nat
    ghost var seen: Seen      // what the window stands for

    ghost predicate Valid()
      reads this
    {
      SeenOk(seen) && seen.max == max && Shows(bits, seen) && epoch < 0x1_0000
    }

    constructor ()
      ensures Valid() && seen == Nothing && epoch == 0
    {
      bits, max, epoch, seen := 0, 0, 0, Nothing;
      ZeroShowsNothing(Nothing);
    }

    /** dtls1_bitmap_should_discard: a number is discarded just if it has been recorded or is 64
        or more below the maximum. */
    method ShouldDiscard(seqNum: seq<byte>) returns (r: bool)
      requires Valid() && |seqNum| == 8
      ensures r <==> Discards(seen, U64(seqNum))
    {
      hide Bit;
      var u := ToU64(seqNum);
      if u > max {
        return false;
      }
      var idx := max - u;
      return idx >= WINDOW || Bit(bits, idx);
    }

    /** dtls1_bitmap_record, for a number that is not stale. */
    method Record(seqNum: seq<byte>)
      requires Valid() && |seqNum| == 8 && !Discards(seen, U64(seqNum))
      modifies this`bits, this`max, this`seen
      ensures Valid() && seen == Recorded(old(seen), U64(seqNum))
    {
      hide Shows, BitOr, ShiftLeft, Pow2;
      var u := ToU64(seqNum);
      if u > max {
        SlideShows(bits, seen, u);
        var shift := u - max;
        if shift >= WINDOW {
          bits := 0;
        } else {
          bits := ShiftLeft(bits, shift, WINDOW);
        }
        max, seen := u, Seen(u, seen.all);
      }
      var idx := max - u;
      if idx < WINDOW {
        MarkShows(bits, seen, u);
        bits := BitOr(bits, Pow2(idx));
      }
      seen := Seen(max, seen.all + {u});
    }

    /** dtls_open_record. `open` is what decryption yields, None when it fails; `nullCipher` and
        `recordVersion` describe the read keys. */
    method OpenRecord(s: seq<byte>, shutdown: bool, nullCipher: bool, recordVersion: nat, open: Option<seq<byte>>)
        returns (res: OpenResult, consumed: nat)
      requires Valid()
      modifies this`bits, this`max, this`seen
      ensures Valid() && consumed <= |s|
      ensures
        var p := ParseRecord(s);
        var isNew := !shutdown && s != [] && p.Parsed? && VersionOk(p.version, nullCipher, recordVersion)
          && EpochOf(p.sequence) == epoch && !old(Discards(seen, U64(p.sequence)));
        // A record is only accepted, with its plaintext, when it is authentic, of the current
        // epoch, and not a replay; and then it is recorded.
        if isNew && open.Some? && |open.value| <= 16384 then
          && seen == Recorded(old(seen), U64(p.sequence))
          && res == (if p.typ == 21 then Alert(open.value) else Success(p.typ, open.value))
        else
          && seen == old(seen)
          && res == (if shutdown then CloseNotify else if s == [] then Partial
                     else if isNew && open.Some? then Overflow else Discard)
      ensures s != [] && !shutdown ==>
        consumed == if ParseRecord(s).Parsed? && VersionOk(ParseRecord(s).version, nullCipher, recordVersion)
                    then ParseRecord(s).consumed else |s|
    {
      consumed := 0;
      if shutdown {
        return CloseNotify, 0;
      }
      if s == [] {
        return Partial, 0;
      }
      var p := ParseRecord(s);
      if p.BadRecord? {
        return Discard, |s|;
      }
      var versionOk := if nullCipher then p.version / 0x100 == VERSION_MAJOR else p.version == recordVersion;
      if !versionOk {
        return Discard, |s|;
      }
      var stale := true;
      if EpochOf(p.sequence) == epoch {
        stale := ShouldDiscard(p.sequence);
      }
      if stale {
        return Discard, p.consumed;
      }
      if open.None? {
        return Discard, p.consumed;
      }
      consumed := p.consumed;
      if |open.value| > MAX_PLAIN {
        return Overflow, consumed;
      }
      Record(p.sequence);
      return if p.typ == CONTENT_ALERT then Alert(open.value) else Success(p.typ, open.value), consumed;
    }

    /** dtls1_set_read_state: a new epoch starts with nothing recorded. */
    method SetReadState(unprocessed: bool) returns (ok: bool)
      requires Valid()
      modifies this
      ensures Valid() && ok == !unprocessed
      ensures ok ==> seen == Nothing && epoch == (old(epoch) + 1) % 0x1_0000
      ensures !ok ==> seen == old(seen) && epoch == old(epoch)
    {
      if unprocessed {
        return false;
      }
      epoch := (epoch + 1) % 0x1_0000;
      bits, max, seen := 0, 0, Nothing;
      ZeroShowsNothing(Nothing);
      return true;
    }
  }

  function EpochOf(sequence: seq<byte>): nat
    requires |sequence| == 8
  {
    FromU16(sequence[0], sequence[1])
  }

  ghost predicate VersionOk(version: nat, nullCipher: bool, recordVersion: nat)
  {
    if nullCipher then version / 0x100 == 0xFE else version == recordVersion
  }

  // ------------------------------------------------------ over a whole epoch

  /** The numbers accepted out of those offered, in order, and what is then recorded. */
  function Accepted(s: Seen, offered: seq<nat>): (seq<nat>, Seen)
    requires SeenOk(s)
    decreases |offered|
  {
    if offered == [] then ([], s)
    else if Discards(s, offered[0]) then Accepted(s, offered[1..])
    else
      var (acc, s') := Accepted(Recorded(s, offered[0]), offered[1..]);
      ([offered[0]] + acc, s')
  }

  /** No number is accepted twice within an epoch. */
  lemma {:induction false} AcceptedOnce(s: Seen, offered: seq<nat>)
    requires SeenOk(s)
    ensures var (acc, s') := Accepted(s, offered);
      && (forall i :: 0 <= i < |acc| ==> acc[i] !in s.all)
      && (forall i, j :: 0 <= i < j < |acc| ==> acc[i] != acc[j])
      && s'.all == s.all + (set u | u in acc)
    decreases |offered|
  {
    if offered != [] {
      AcceptedOnce(if Discards(s, offered[0]) then s else Recorded(s, offered[0]), offered[1..]);
    }
  }

  /** And no number is lost without need: each one offered has been accepted in the end, unless
      it came 64 or more behind the largest number that had been accepted. */
  lemma {:induction false} OnlyStaleAreLost(s: Seen, offered: seq<nat>, i: nat)
    requires SeenOk(s) && i < |offered|
    ensures offered[i] in Accepted(s, offered).1.all || offered[i] + 64 <= Accepted(s, offered[..i]).1.max
    decreases |offered|
  {
    var s' := if Discards(s, offered[0]) then s else Recorded(s, offered[0]);
    if i == 0 {
      AcceptedOnce(s', offered[1..]);
    } else {
      OnlyStaleAreLost(s', offered[1..], i - 1);
      assert offered[..i][0] == offered[0] && offered[..i][1..] == offered[1..][..i - 1];
    }
  }
}
