/** Client and server of a TLS 1.0 to 1.2 handshake, each with its own state machine, over
    channels that deliver records in order: neither fails, they never wait for each other, and
    they end with the same transcript. */
module TlsAgreement {
  import opened TlsHandshake
  import opened TlsStates
  import opened TlsRuns
  import opened TlsScript

  // ------------------------------------------------------ two endpoints

  /** The parameters as the server or the client sees them. */
  function Side(k: Params, server: bool): Conf { Conf(server, k) }

  datatype System = System(client: Endpoint, server: Endpoint)

  function Beginning(): System { System(Init(false), Init(true)) }

  function Get(y: System, server: bool): Endpoint { if server then y.server else y.client }

  function Put(y: System, server: bool, e: Endpoint): System
  {
    if server then y.(server := e) else y.(client := e)
  }

  /** One of the endpoints moves; what it writes arrives at the other, in order. Nothing fails of
      itself: a callback may ask to be called again, but gives up in the end. */
  predicate Allowed(y: System, server: bool, m: Move)
  {
    Enabled(Get(y, server), m) && !m.Arrive? && (m.Machine? ==> !m.c.Fail?)
  }

  function Written(e: Endpoint, m: Move): seq<Item>
    requires Enabled(e, m)
  {
    if m.Write? then e.h.flight[..m.n] else []
  }

  function Moved(k: Params, y: System, server: bool, m: Move): System
    requires Allowed(y, server, m)
  {
    var e, o := Get(y, server), Get(y, !server);
    Put(Put(y, server, Next(Side(k, server), e, m)), !server, o.(inbox := o.inbox + Written(e, m)))
  }

  /** The records on their way to `a` from `b`; a message that has been read is still on its way. */
  function Flow(a: Endpoint, b: Endpoint): seq<Item>
  {
    (if a.h.buffer == [] then [] else [Record(a.h.buffer, a.h.readKeys)]) + a.inbox + b.h.flight
  }

  function RestOf(k: Params, e: Endpoint, server: bool): seq<Entry> { Rest(Side(k, server), e.h.state, e.wait) }

  predicate AllBy(es: seq<Entry>, byServer: bool) { forall i :: 0 <= i < |es| ==> es[i].byServer == byServer }

  /** `a` is behind `b` by the first n entries that are still to come for it: they are b's, and
      their records are on the way. Nothing is on the way to `b`. */
  ghost predicate Behind(k: Params, a: Endpoint, b: Endpoint, bIsServer: bool, n: nat)
  {
    var ra, rb := RestOf(k, a, !bIsServer), RestOf(k, b, bIsServer);
    && n <= |ra| && ra[n..] == rb && AllBy(ra[..n], bIsServer)
    && AreItems(k, a.h.transcript, ra[..n], Flow(a, b))
    && b.h.transcript == a.h.transcript + MessagesIn(Flow(a, b))
    && Flow(b, a) == []
  }

  ghost predicate Honest(k: Params, e: Endpoint, server: bool)
  {
    e.wait != Error && Follows(Side(k, server), e.h, e.wait)
  }

  /** What every state of an honest system keeps; `a` is the endpoint that may be looked at first. */
  ghost predicate PairOk(k: Params, a: Endpoint, b: Endpoint, bIsServer: bool)
  {
    && Honest(k, a, !bIsServer) && Honest(k, b, bIsServer)
    && (SomeBehind(k, a, b, bIsServer) || SomeBehind(k, b, a, !bIsServer))
  }

  ghost predicate SomeBehind(k: Params, a: Endpoint, b: Endpoint, bIsServer: bool)
  {
    exists n: nat :: Behind(k, a, b, bIsServer, n)
  }

  ghost predicate SystemOk(k: Params, y: System) { PairOk(k, y.client, y.server, true) }

  lemma PairMeans(k: Params, a: Endpoint, b: Endpoint, bIsServer: bool)
    requires PairOk(k, a, b, bIsServer)
    ensures Honest(k, a, !bIsServer) && Honest(k, b, bIsServer)
    ensures SomeBehind(k, a, b, bIsServer) || SomeBehind(k, b, a, !bIsServer)
  {
    hide Honest, SomeBehind;
  }

  lemma PairFrom(k: Params, a: Endpoint, b: Endpoint, bIsServer: bool)
    requires Honest(k, a, !bIsServer) && Honest(k, b, bIsServer)
    requires SomeBehind(k, a, b, bIsServer) || SomeBehind(k, b, a, !bIsServer)
    ensures PairOk(k, a, b, bIsServer)
  {
    hide Honest, SomeBehind;
  }

  lemma PairIsSymmetric(k: Params, a: Endpoint, b: Endpoint, bIsServer: bool)
    requires PairOk(k, a, b, bIsServer)
    ensures PairOk(k, b, a, !bIsServer)
  {
    hide SomeBehind, Honest;
    assert !(!bIsServer) == bIsServer;
  }

  // ------------------------------------------------------ records and entries

  /** The first record is that of the first entry, and the others follow it. */
  lemma FirstItem(k: Params, t: seq<Message>, es: seq<Entry>, items: seq<Item>)
    requires AreItems(k, t, es, items) && es != []
    ensures items != [] && IsItem(k, t, es[0], items[0])
    ensures AreItems(k, t + MessagesIn(items[..1]), es[1..], items[1..])
    ensures t + MessagesIn(items) == (t + MessagesIn(items[..1])) + MessagesIn(items[1..])
  {
    hide IsItem, MessagesIn;
    NoMessages();
    assert items[..0] == [] && t + [] == t;
    assert IsItem(k, t + MessagesIn(items[..0]), es[0], items[0]);
    assert items == items[..1] + items[1..];
    MessagesJoin(items[..1], items[1..]);
    forall i | 0 <= i < |es| - 1
      ensures IsItem(k, (t + MessagesIn(items[..1])) + MessagesIn(items[1..][..i]), es[1..][i], items[1..][i])
    {
      assert items[..i + 1] == items[..1] + items[1..][..i];
      MessagesJoin(items[..1], items[1..][..i]);
      assert IsItem(k, t + MessagesIn(items[..i + 1]), es[i + 1], items[i + 1]);
      assert t + (MessagesIn(items[..1]) + MessagesIn(items[1..][..i])) == (t + MessagesIn(items[..1])) + MessagesIn(items[1..][..i]);
    }
  }

  lemma NoMessages()
    ensures MessagesIn([]) == []
  {}

  // ------------------------------------------------------ each move keeps the system honest

  /** What is next for an endpoint that is behind. */
  lemma BehindFirst(k: Params, a: Endpoint, b: Endpoint, bIsServer: bool, n: nat)
    requires Behind(k, a, b, bIsServer, n) && n > 0
    ensures var ra, flow := RestOf(k, a, !bIsServer), Flow(a, b);
      && ra != [] && ra[0].byServer == bIsServer && flow != []
      && IsItem(k, a.h.transcript, ra[0], flow[0])
      && AreItems(k, a.h.transcript + MessagesIn([flow[0]]), ra[1..][..n - 1], flow[1..])
      && b.h.transcript == (a.h.transcript + MessagesIn([flow[0]])) + MessagesIn(flow[1..])
      && ra[1..][n - 1..] == RestOf(k, b, bIsServer)
      && AllBy(ra[1..][..n - 1], bIsServer)
  {
    hide Rest, IsItem, AreItems, MessagesIn;
    var ra, flow := RestOf(k, a, !bIsServer), Flow(a, b);
    FirstItem(k, a.h.transcript, ra[..n], flow);
    assert flow[..1] == [flow[0]] && ra[..n][0] == ra[0];
    assert ra[..n][1..] == ra[1..][..n - 1] && ra[1..][n - 1..] == ra[n..];
  }

  /** Nothing is on the way to an endpoint that is not behind. */
  lemma BehindByNone(k: Params, a: Endpoint, b: Endpoint, bIsServer: bool, n: nat)
    requires Behind(k, a, b, bIsServer, n)
    ensures n == 0 <==> Flow(a, b) == []
  {
    hide Rest, IsItem, MessagesIn, Flow;
  }

  /** The endpoint that is behind has just read what comes next, if it has read anything. */
  lemma BehindIsFed(k: Params, a: Endpoint, b: Endpoint, bIsServer: bool, n: nat)
    requires Behind(k, a, b, bIsServer, n) && a.wait == Ok && |a.h.buffer| <= 1
    ensures Fed(Side(k, !bIsServer), a.h)
  {
    hide Behind, Rest, IsMessage, AreItems, MessagesIn;
    if a.h.buffer != [] {
      BehindByNone(k, a, b, bIsServer, n);
      BehindFirst(k, a, b, bIsServer, n);
      var e := RestOf(k, a, !bIsServer)[0];
      assert Flow(a, b)[0] == Record(a.h.buffer, a.h.readKeys);
    }
  }

  /** The endpoint that is behind takes the first record that is on its way. */
  lemma BehindMoves(k: Params, a: Endpoint, a': Endpoint, b: Endpoint, bIsServer: bool, n: nat)
    requires Behind(k, a, b, bIsServer, n) && n > 0
    requires RestOf(k, a', !bIsServer) == RestOf(k, a, !bIsServer)[1..]
    requires Flow(a, b) != [] && Flow(a, b) == [Flow(a, b)[0]] + Flow(a', b) && a'.h.flight == a.h.flight
    requires a'.h.transcript == a.h.transcript + MessagesIn([Flow(a, b)[0]])
    ensures Behind(k, a', b, bIsServer, n - 1)
  {
    BehindFirst(k, a, b, bIsServer, n);
    hide Rest, IsItem, AreItems, MessagesIn;
    assert Flow(a, b)[1..] == Flow(a', b);
  }

  /** An endpoint that changes nothing that matters stays behind. */
  lemma StaysBehind(k: Params, a: Endpoint, a': Endpoint, b: Endpoint, b': Endpoint, bIsServer: bool, n: nat)
    requires Behind(k, a, b, bIsServer, n)
    requires RestOf(k, a', !bIsServer) == RestOf(k, a, !bIsServer) && RestOf(k, b', bIsServer) == RestOf(k, b, bIsServer)
    requires Flow(a', b') == Flow(a, b) && Flow(b', a') == Flow(b, a)
    requires a'.h.transcript == a.h.transcript && b'.h.transcript == b.h.transcript
    ensures Behind(k, a', b', bIsServer, n)
  {
    hide RestOf, Flow, AreItems, MessagesIn, AllBy;
  }

  /** When nothing is on the way, either may be said to be behind. */
  lemma BehindNothing(k: Params, a: Endpoint, b: Endpoint, bIsServer: bool)
    requires Behind(k, a, b, bIsServer, 0)
    ensures Behind(k, b, a, !bIsServer, 0)
  {
    hide Rest, IsItem, MessagesIn;
    NoMessages();
    assert !(!bIsServer) == bIsServer;
    assert a.h.transcript + [] == a.h.transcript && b.h.transcript + [] == b.h.transcript;
  }

  /** The endpoint that is ahead sends more. */
  lemma AheadSends(k: Params, b: Endpoint, a: Endpoint, a': Endpoint, aIsServer: bool, n: nat, es: seq<Entry>)
    requires Behind(k, b, a, aIsServer, n)
    requires RestOf(k, a, aIsServer) == es + RestOf(k, a', aIsServer)
    requires AllBy(es, aIsServer) && a'.h.buffer == a.h.buffer == [] && a'.inbox == a.inbox
    requires |a.h.flight| <= |a'.h.flight| && a'.h.flight == a.h.flight + a'.h.flight[|a.h.flight|..]
    requires AreItems(k, a.h.transcript, es, a'.h.flight[|a.h.flight|..])
    requires a'.h.transcript == a.h.transcript + MessagesIn(a'.h.flight[|a.h.flight|..])
    ensures Behind(k, b, a', aIsServer, n + |es|)
  {
    hide Rest, AreItems, MessagesIn;
    var rb, more, flow := RestOf(k, b, !aIsServer), a'.h.flight[|a.h.flight|..], Flow(b, a);
    assert Flow(b, a') == flow + more;
    ItemsJoin(k, b.h.transcript, rb[..n], flow, es, more);
    assert rb == rb[..n] + rb[n..];
    assert rb[..n + |es|] == rb[..n] + es && rb[n + |es|..] == RestOf(k, a', aIsServer);
    MessagesJoin(flow, more);
    assert b.h.transcript + (MessagesIn(flow) + MessagesIn(more)) == (b.h.transcript + MessagesIn(flow)) + MessagesIn(more);
  }

  /** What Goes says of the records that a step sends, for both sides. */
  lemma GoesSends(k: Params, a: Endpoint, r: Stepped, aIsServer: bool) returns (m: nat)
    requires Goes(Side(k, aIsServer), a.h, r) && a.wait == Ok && !Takes(a.h, r.hs)
    ensures m <= |RestOf(k, a, aIsServer)|
    ensures var a' := Endpoint(r.hs, r.wait, a.inbox); var es := RestOf(k, a, aIsServer)[..m];
      && RestOf(k, a, aIsServer) == es + RestOf(k, a', aIsServer) && AllBy(es, aIsServer)
      && a'.h.buffer == a.h.buffer && (a.h.buffer != [] ==> a'.h.readKeys == a.h.readKeys)
      && |a.h.flight| <= |a'.h.flight| && a'.h.flight == a.h.flight + a'.h.flight[|a.h.flight|..]
      && AreItems(k, a.h.transcript, es, a'.h.flight[|a.h.flight|..])
      && a'.h.transcript == a.h.transcript + MessagesIn(a'.h.flight[|a.h.flight|..])
  {
    hide Rest, Follows, AreItems, MessagesIn, Takes;
    m := |RestOf(k, a, aIsServer)| - |Rest(Side(k, aIsServer), r.hs.state, r.wait)|;
    var es := RestOf(k, a, aIsServer)[..m];
  }

  /** A state in which the endpoint that is behind takes what it has read, */
  lemma BehindTakes(k: Params, a: Endpoint, b: Endpoint, bIsServer: bool, n: nat, r: Stepped)
    requires Behind(k, a, b, bIsServer, n) && n > 0 && a.wait == Ok && |a.h.buffer| <= 1
    requires Goes(Side(k, !bIsServer), a.h, r) && Takes(a.h, r.hs)
    ensures Behind(k, Endpoint(r.hs, r.wait, a.inbox), b, bIsServer, n - 1)
  {
    hide Behind, Goes, RestOf, IsItem, AreItems, MessagesIn;
    GoesTakes(k, a, r, !bIsServer);
    OneItem(Record(a.h.buffer, a.h.readKeys));
    assert a.h.buffer == [a.h.buffer[0]];
    assert Flow(a, b) == [Record(a.h.buffer, a.h.readKeys)] + Flow(Endpoint(r.hs, r.wait, a.inbox), b);
    BehindMoves(k, a, Endpoint(r.hs, r.wait, a.inbox), b, bIsServer, n);
  }

  /** and one in which it does not: the next entry is not its own, so it sends nothing. */
  lemma BehindSends(k: Params, a: Endpoint, b: Endpoint, bIsServer: bool, n: nat, r: Stepped)
    requires Behind(k, a, b, bIsServer, n) && n > 0 && a.wait == Ok
    requires Goes(Side(k, !bIsServer), a.h, r) && !Takes(a.h, r.hs)
    ensures Behind(k, Endpoint(r.hs, r.wait, a.inbox), b, bIsServer, n)
  {
    hide Behind, Goes, RestOf, IsItem, AreItems, MessagesIn, Takes;
    var a' := Endpoint(r.hs, r.wait, a.inbox);
    BehindFirst(k, a, b, bIsServer, n);
    var m := GoesSends(k, a, r, !bIsServer);
    var ra := RestOf(k, a, !bIsServer);
    FirstSender(ra, m, !bIsServer);
    NothingSent(k, a.h.transcript, ra[..m], a'.h.flight[|a.h.flight|..]);
    assert ra == RestOf(k, a', !bIsServer);
    assert a'.h.flight == a.h.flight && a'.h.transcript == a.h.transcript;
    assert Flow(a', b) == Flow(a, b) && Flow(b, a') == Flow(b, a);
    StaysBehind(k, a, a', b, b, bIsServer, n);
  }

  lemma FirstSender(ra: seq<Entry>, m: nat, byServer: bool)
    requires m <= |ra| && AllBy(ra[..m], byServer)
    ensures m == 0 || ra[0].byServer == byServer
  {
    assert m > 0 ==> ra[..m][0] == ra[0];
  }

  lemma NothingSent(k: Params, t: seq<Message>, es: seq<Entry>, items: seq<Item>)
    requires AreItems(k, t, es, items) && es == []
    ensures items == [] && MessagesIn(items) == []
  {}

  /** Nothing is on the way to the endpoint that is ahead. */
  lemma BehindIdle(k: Params, b: Endpoint, a: Endpoint, aIsServer: bool, n: nat)
    requires Behind(k, b, a, aIsServer, n)
    ensures Flow(a, b) == [] && a.h.buffer == [] && a.inbox == []
  {
    hide Rest, AreItems, MessagesIn, AllBy;
  }

  lemma NoneTaken(h: Hs, r: Hs)
    requires h.buffer == []
    ensures !Takes(h, r)
  {}

  lemma GoesTakes(k: Params, a: Endpoint, r: Stepped, aIsServer: bool)
    requires Goes(Side(k, aIsServer), a.h, r) && a.wait == Ok && Takes(a.h, r.hs) && |a.h.buffer| <= 1
    ensures RestOf(k, Endpoint(r.hs, r.wait, a.inbox), aIsServer) == RestOf(k, a, aIsServer)[1..]
  {
    hide Rest, Follows, AreItems, MessagesIn;
  }

  /** One state of an endpoint that is not behind. */
  lemma AheadSteps(k: Params, b: Endpoint, a: Endpoint, aIsServer: bool, n: nat, r: Stepped)
    requires Behind(k, b, a, aIsServer, n) && a.wait == Ok && Goes(Side(k, aIsServer), a.h, r)
    ensures SomeBehind(k, b, Endpoint(r.hs, r.wait, a.inbox), aIsServer)
  {
    var a' := Endpoint(r.hs, r.wait, a.inbox);
    hide Behind, Goes, Rest, IsItem, AreItems, MessagesIn, IsMessage, Takes;
    BehindIdle(k, b, a, aIsServer, n);
    NoneTaken(a.h, r.hs);
    var m := GoesSends(k, a, r, aIsServer);
    AheadSends(k, b, a, a', aIsServer, n, RestOf(k, a, aIsServer)[..m]);
    assert Behind(k, b, a', aIsServer, n + |RestOf(k, a, aIsServer)[..m]|);
  }

  lemma BehindKeeps(k: Params, a: Endpoint, b: Endpoint, bIsServer: bool, n: nat, c: Choice)
    requires Follows(Side(k, !bIsServer), a.h, a.wait) && Enabled(a, Machine(c)) && !c.Fail?
    requires Agreed(k) || Step(Side(k, !bIsServer), a.h, c).wait != Error
    requires n > 0 && Behind(k, a, b, bIsServer, n)
    ensures var r := Step(Side(k, !bIsServer), a.h, c);
      Goes(Side(k, !bIsServer), a.h, r) && SomeBehind(k, Endpoint(r.hs, r.wait, a.inbox), b, bIsServer)
  {
    hide Agreed, Follows, Behind, Goes, Fed, Step, RestOf, Flow, Takes;
    SmallBuffer(Side(k, !bIsServer), a.h, a.wait);
    BehindIsFed(k, a, b, bIsServer, n);
    StepGoes(Side(k, !bIsServer), a.h, c);
    var r := Step(Side(k, !bIsServer), a.h, c);
    if Takes(a.h, r.hs) {
      BehindTakes(k, a, b, bIsServer, n, r);
    } else {
      BehindSends(k, a, b, bIsServer, n, r);
    }
  }

  lemma AheadKeeps(k: Params, b: Endpoint, a: Endpoint, aIsServer: bool, n: nat, c: Choice)
    requires Follows(Side(k, aIsServer), a.h, a.wait) && Enabled(a, Machine(c)) && !c.Fail?
    requires Agreed(k) || Step(Side(k, aIsServer), a.h, c).wait != Error
    requires Behind(k, b, a, aIsServer, n)
    ensures var r := Step(Side(k, aIsServer), a.h, c);
      Goes(Side(k, aIsServer), a.h, r) && SomeBehind(k, b, Endpoint(r.hs, r.wait, a.inbox), aIsServer)
  {
    hide Agreed, Follows, Behind, Goes, Fed, Step, RestOf, Flow, Takes;
    NothingRead(k, b, a, aIsServer, n);
    StepGoes(Side(k, aIsServer), a.h, c);
    AheadSteps(k, b, a, aIsServer, n, Step(Side(k, aIsServer), a.h, c));
  }

  lemma MachineKeeps(k: Params, a: Endpoint, b: Endpoint, bIsServer: bool, c: Choice)
    requires PairOk(k, a, b, bIsServer) && Enabled(a, Machine(c)) && !c.Fail?
    requires Agreed(k) || Step(Side(k, !bIsServer), a.h, c).wait != Error
    ensures PairOk(k, Next(Side(k, !bIsServer), a, Machine(c)), b, bIsServer)
  {
    hide Agreed, PairOk, Honest, Behind, SomeBehind, Goes, Step, OpenRecord, Side;
    PairMeans(k, a, b, bIsServer);
    HonestFollows(k, a, !bIsServer);
    var isBehind, n := WhoIsBehind(k, a, b, bIsServer);
    if isBehind {
      BehindKeeps(k, a, b, bIsServer, n, c);
    } else {
      AheadKeeps(k, b, a, !bIsServer, n, c);
    }
    var r := Step(Side(k, !bIsServer), a.h, c);
    GoesFollows(Side(k, !bIsServer), a.h, r);
    FollowsHonest(k, Endpoint(r.hs, r.wait, a.inbox), !bIsServer);
    PairFrom(k, Endpoint(r.hs, r.wait, a.inbox), b, bIsServer);
  }

  /** Either `a` has records to read, or it is not behind. */
  lemma WhoIsBehind(k: Params, a: Endpoint, b: Endpoint, bIsServer: bool) returns (isBehind: bool, n: nat)
    requires SomeBehind(k, a, b, bIsServer) || SomeBehind(k, b, a, !bIsServer)
    ensures isBehind ==> n > 0 && Behind(k, a, b, bIsServer, n)
    ensures !isBehind ==> Behind(k, b, a, !bIsServer, n)
  {
    hide Behind;
    if SomeBehind(k, a, b, bIsServer) {
      n :| Behind(k, a, b, bIsServer, n);
      isBehind := n > 0;
      if n == 0 { BehindNothing(k, a, b, bIsServer); }
    } else {
      n :| Behind(k, b, a, !bIsServer, n);
      isBehind := false;
    }
  }

  lemma NothingRead(k: Params, b: Endpoint, a: Endpoint, aIsServer: bool, n: nat)
    requires Behind(k, b, a, aIsServer, n)
    ensures Fed(Side(k, aIsServer), a.h)
  {
    hide Behind, IsMessage, AwaitsMessage;
    BehindIdle(k, b, a, aIsServer, n);
  }

  lemma SmallBuffer(k: Conf, h: Hs, wait: Wait)
    requires Follows(k, h, wait)
    ensures |h.buffer| <= 1
  {
    hide HsOk, CertKnown, AwaitsMessage, At;
  }

  lemma GoesFollows(k: Conf, h: Hs, r: Stepped)
    requires Goes(k, h, r)
    ensures r.wait != Error && Follows(k, r.hs, r.wait)
  {
    hide Follows, Sends, Takes, Rest;
  }

  lemma RestIgnores(k: Conf, st: State, wait: Wait)
    requires wait != ReadChangeCipherSpec
    ensures Rest(k, st, wait) == Rest(k, st, Ok)
  {}

  // What Follows says of an endpoint that waits.

  lemma FollowsOk(k: Conf, h: Hs, wait: Wait)
    requires Follows(k, h, wait)
    ensures HsOk(k, h, wait) && CertKnown(k, h) && (wait != Flush && !At(k, h.state).sending ==> h.flight == [])
    ensures wait == ReadMessage ==> h.buffer == [] && AwaitsMessage(k, h) && !At(k, h.state).sending
  {
    hide HsOk, CertKnown, At, AwaitsMessage;
  }

  lemma FollowsBy(k: Conf, h: Hs, r: Hs, wait: Wait, w: Wait)
    requires Follows(k, h, wait) && HsOk(k, r, w) && w != ReadMessage && |r.buffer| <= 1
    requires r.state == h.state && r.certRequest == h.certRequest && r.peerCert == h.peerCert
    requires wait != Flush || w == Flush || r.flight == []
    requires r.flight == h.flight || w == Flush || r.flight == []
    ensures Follows(k, r, w)
  {
    hide HsOk, CertKnown, At, AwaitsMessage;
    CertStays(k, h, r);
  }

  /** A record is opened as it should be: what the endpoint then holds. */
  lemma OpenedMessage(k: Conf, a: Endpoint)
    requires a.inbox != [] && a.wait == ReadMessage && a.inbox[0].Record? && a.inbox[0].keys == a.h.readKeys && a.h.buffer == []
    ensures var a' := Next(k, a, Open);
      && a'.wait == Ok && a'.inbox == a.inbox[1..] && a'.h.buffer == a.inbox[0].msgs && Unread(a.h, a'.h)
      && a'.h.readKeys == a.h.readKeys
  {}

  lemma OpenedCcs(k: Conf, a: Endpoint)
    requires a.inbox != [] && a.wait == ReadChangeCipherSpec && a.inbox[0] == Ccs(a.h.readKeys)
    ensures var a' := Next(k, a, Open);
      && a'.wait == Ok && a'.inbox == a.inbox[1..] && a'.h.buffer == a.h.buffer && Unread(a.h, a'.h)
  {
    hide Messages, Marks, Coherent;
  }

  predicate Unread(h: Hs, r: Hs)
  {
    && r.state == h.state && r.flight == h.flight && r.transcript == h.transcript
    && r.certRequest == h.certRequest && r.peerCert == h.peerCert
  }

  lemma FlowRead(a: Endpoint, a': Endpoint, b: Endpoint)
    requires a.h.buffer == [] && a.inbox != [] && a'.inbox == a.inbox[1..] && a'.h.flight == a.h.flight
    requires a'.h.buffer != [] && Record(a'.h.buffer, a'.h.readKeys) == a.inbox[0]
    ensures Flow(a', b) == Flow(a, b) && Flow(b, a') == Flow(b, a)
  {
    assert a.inbox == [a.inbox[0]] + a.inbox[1..];
  }

  /** The record that has arrived is the one that is waited for. */
  lemma NextIsMessage(k: Params, a: Endpoint, b: Endpoint, bIsServer: bool, n: nat)
    requires Behind(k, a, b, bIsServer, n) && n > 0 && a.wait == ReadMessage && a.inbox != []
    requires Follows(Side(k, !bIsServer), a.h, a.wait)
    ensures a.h.buffer == [] && a.inbox[0].Record? && a.inbox[0].keys == a.h.readKeys && |a.inbox[0].msgs| == 1
  {
    hide Behind, Follows, HsOk, CertKnown, AreItems, MessagesIn, At, IsMessage, Tail, Rest, Flow;
    var ka := Side(k, !bIsServer);
    BehindFirst(k, a, b, bIsServer, n);
    FollowsOk(ka, a.h, a.wait);
    RestIgnores(ka, a.h.state, a.wait);
    FlowFirst(a, b);
  }

  lemma NextIsCcs(k: Params, a: Endpoint, b: Endpoint, bIsServer: bool, n: nat)
    requires Behind(k, a, b, bIsServer, n) && n > 0 && a.wait == ReadChangeCipherSpec && a.inbox != []
    requires Follows(Side(k, !bIsServer), a.h, a.wait)
    ensures a.h.buffer == [] && a.inbox[0] == Ccs(0) && a.h.readKeys == 0 && Flow(a, b) != [] && Flow(a, b)[0] == Ccs(0)
  {
    hide Behind, Follows, HsOk, CertKnown, AreItems, MessagesIn, At, IsMessage, Tail, Rest, Flow;
    var ka := Side(k, !bIsServer);
    BehindFirst(k, a, b, bIsServer, n);
    FollowsOk(ka, a.h, a.wait);
    RestAfterCcs(ka, a.h.state);
    KeysBeforeCcs(ka, a.h);
    FlowFirst(a, b);
  }

  lemma MessageFollows(k: Params, a: Endpoint, server: bool)
    requires Follows(Side(k, server), a.h, a.wait) && a.wait == ReadMessage && a.inbox != [] && a.h.buffer == []
    requires a.inbox[0].Record? && a.inbox[0].keys == a.h.readKeys && |a.inbox[0].msgs| == 1
    ensures Honest(k, Next(Side(k, server), a, Open), server)
  {
    hide Follows, HsOk, Rest, Flow, Next;
    var ka, a' := Side(k, server), Next(Side(k, server), a, Open);
    FollowsOk(ka, a.h, a.wait);
    OpenedMessage(ka, a);
    OpenOk(ka, a);
    FollowsBy(ka, a.h, a'.h, ReadMessage, Ok);
  }

  lemma CcsFollows(k: Params, a: Endpoint, server: bool)
    requires Follows(Side(k, server), a.h, a.wait) && a.wait == ReadChangeCipherSpec && a.inbox != [] && a.h.buffer == []
    requires a.inbox[0] == Ccs(a.h.readKeys)
    ensures Honest(k, Next(Side(k, server), a, Open), server)
  {
    hide Follows, HsOk, Rest, Flow, Next;
    var ka, a' := Side(k, server), Next(Side(k, server), a, Open);
    FollowsOk(ka, a.h, a.wait);
    OpenedCcs(ka, a);
    OpenOk(ka, a);
    FollowsBy(ka, a.h, a'.h, ReadChangeCipherSpec, Ok);
  }

  /** A message is read, and stays on its way until it is consumed. */
  lemma OpensMessage(k: Params, a: Endpoint, b: Endpoint, bIsServer: bool, n: nat)
    requires Behind(k, a, b, bIsServer, n) && n > 0 && a.wait == ReadMessage && a.inbox != []
    requires Follows(Side(k, !bIsServer), a.h, a.wait)
    ensures var a' := Next(Side(k, !bIsServer), a, Open);
      Honest(k, a', !bIsServer) && SomeBehind(k, a', b, bIsServer)
  {
    hide Behind, Honest, Follows, HsOk, AreItems, MessagesIn, At, IsMessage, Tail, Rest, Next, AwaitsMessage;
    var a' := Next(Side(k, !bIsServer), a, Open);
    NextIsMessage(k, a, b, bIsServer, n);
    MessageFollows(k, a, !bIsServer);
    OpenedMessage(Side(k, !bIsServer), a);
    RestUnmoved(k, a, a', !bIsServer);
    FlowRead(a, a', b);
    StaysBehind(k, a, a', b, b, bIsServer, n);
    assert Behind(k, a', b, bIsServer, n);
  }

  /** The ChangeCipherSpec is read. */
  lemma OpensCcs(k: Params, a: Endpoint, b: Endpoint, bIsServer: bool, n: nat)
    requires Behind(k, a, b, bIsServer, n) && n > 0 && a.wait == ReadChangeCipherSpec && a.inbox != []
    requires Follows(Side(k, !bIsServer), a.h, a.wait)
    ensures var a' := Next(Side(k, !bIsServer), a, Open);
      Honest(k, a', !bIsServer) && SomeBehind(k, a', b, bIsServer)
  {
    hide Behind, Honest, Follows, HsOk, AreItems, MessagesIn, At, IsMessage, Tail, Rest, Next, AwaitsMessage;
    var a' := Next(Side(k, !bIsServer), a, Open);
    NextIsCcs(k, a, b, bIsServer, n);
    CcsFollows(k, a, !bIsServer);
    OpenedCcs(Side(k, !bIsServer), a);
    RestAfterCcs(Side(k, !bIsServer), a.h.state);
    OneItem(Ccs(0));
    assert a.h.transcript + [] == a.h.transcript;
    CcsGone(a, a', b);
    BehindMoves(k, a, a', b, bIsServer, n);
    assert Behind(k, a', b, bIsServer, n - 1);
  }

  lemma KeysBeforeCcs(k: Conf, h: Hs)
    requires HsOk(k, h, ReadChangeCipherSpec)
    ensures h.readKeys == 0
  {
    hide Coherent, Marks, Made, At;
  }

  /** What has been read comes first, before the records that have arrived. */
  lemma FlowFirst(a: Endpoint, b: Endpoint)
    requires a.inbox != []
    ensures Flow(a, b) != [] && Flow(a, b)[0] == if a.h.buffer == [] then a.inbox[0] else Record(a.h.buffer, a.h.readKeys)
  {}

  lemma RestAfterCcs(k: Conf, st: State)
    ensures Rest(k, st, ReadChangeCipherSpec) != [] && Rest(k, st, Ok) == Rest(k, st, ReadChangeCipherSpec)[1..]
    ensures Rest(k, st, ReadChangeCipherSpec)[0] == CcsOf(!k.server)
  {
    hide Tail, At;
  }

  lemma CcsGone(a: Endpoint, a': Endpoint, b: Endpoint)
    requires a.h.buffer == [] && a'.h.buffer == [] && a.inbox != [] && a'.inbox == a.inbox[1..]
    ensures Flow(a, b) != [] && Flow(a, b) == [Flow(a, b)[0]] + Flow(a', b)
  {
    assert a.inbox == [a.inbox[0]] + a.inbox[1..];
  }

  /** Opening a record that is on the way. */
  lemma OpenKeeps(k: Params, a: Endpoint, b: Endpoint, bIsServer: bool)
    requires PairOk(k, a, b, bIsServer) && Enabled(a, Open)
    ensures PairOk(k, Next(Side(k, !bIsServer), a, Open), b, bIsServer)
  {
    hide PairOk, Honest, Behind, SomeBehind, Next, Rest, Flow;
    PairMeans(k, a, b, bIsServer);
    var isBehind, n := WhoIsBehind(k, a, b, bIsServer);
    if !isBehind { BehindIdle(k, b, a, !bIsServer, n); }
    HonestFollows(k, a, !bIsServer);
    if a.wait == ReadMessage {
      OpensMessage(k, a, b, bIsServer, n);
    } else {
      OpensCcs(k, a, b, bIsServer, n);
    }
    PairFrom(k, Next(Side(k, !bIsServer), a, Open), b, bIsServer);
  }

  /** Part of the flight is written, and arrives. */
  lemma WriteKeeps(k: Params, a: Endpoint, b: Endpoint, bIsServer: bool, m: nat)
    requires PairOk(k, a, b, bIsServer) && Enabled(a, Write(m))
    ensures PairOk(k, Next(Side(k, !bIsServer), a, Write(m)), b.(inbox := b.inbox + a.h.flight[..m]), bIsServer)
  {
    hide PairOk, Honest, Follows, HsOk, Behind, SomeBehind, Rest, Flow, Next;
    PairMeans(k, a, b, bIsServer);
    HonestFollows(k, a, !bIsServer);
    WriteFollows(k, a, !bIsServer, m);
    var a' := Next(Side(k, !bIsServer), a, Write(m));
    Wrote(Side(k, !bIsServer), a, m);
    FlowWritten(a, a', b, b.(inbox := b.inbox + a.h.flight[..m]), m);
    RestUnmoved(k, a, a', !bIsServer);
    PairStays(k, a, a', b, b.(inbox := b.inbox + a.h.flight[..m]), bIsServer);
    HonestInbox(k, b, bIsServer, b.inbox + a.h.flight[..m]);
    PairFrom(k, a', b.(inbox := b.inbox + a.h.flight[..m]), bIsServer);
  }

  lemma HonestFollows(k: Params, e: Endpoint, server: bool)
    requires Honest(k, e, server)
    ensures e.wait != Error && Follows(Side(k, server), e.h, e.wait)
  {
    hide Follows;
  }

  lemma FollowsHonest(k: Params, e: Endpoint, server: bool)
    requires e.wait != Error && Follows(Side(k, server), e.h, e.wait)
    ensures Honest(k, e, server)
  {
    hide Follows;
  }

  lemma HonestInbox(k: Params, e: Endpoint, server: bool, inbox: seq<Item>)
    requires Honest(k, e, server)
    ensures Honest(k, e.(inbox := inbox), server)
  {
    hide Follows;
  }

  lemma RestUnmoved(k: Params, a: Endpoint, a': Endpoint, server: bool)
    requires a'.h.state == a.h.state && a.wait != ReadChangeCipherSpec && a'.wait != ReadChangeCipherSpec
    ensures RestOf(k, a', server) == RestOf(k, a, server)
  {
    hide Tail, At;
  }

  lemma WriteFollows(k: Params, a: Endpoint, server: bool, m: nat)
    requires Follows(Side(k, server), a.h, a.wait) && Enabled(a, Write(m))
    ensures Honest(k, Next(Side(k, server), a, Write(m)), server)
  {
    hide Follows, HsOk, Rest, Flow, Next;
    var ka, a' := Side(k, server), Next(Side(k, server), a, Write(m));
    FollowsOk(ka, a.h, a.wait);
    MoveOk(ka, a, Write(m));
    SmallBuffer(ka, a.h, a.wait);
    Wrote(ka, a, m);
    FollowsBy(ka, a.h, a'.h, Flush, a'.wait);
  }

  lemma ResumeFollows(k: Params, a: Endpoint, server: bool)
    requires Follows(Side(k, server), a.h, a.wait) && Enabled(a, Resume)
    ensures Honest(k, a.(wait := Ok), server)
  {
    hide Follows, HsOk, Rest, Flow, Step, OpenRecord;
    var ka := Side(k, server);
    FollowsOk(ka, a.h, a.wait);
    MoveOk(ka, a, Resume);
    SmallBuffer(ka, a.h, a.wait);
    FollowsBy(ka, a.h, a.h, a.wait, Ok);
  }

  lemma Wrote(k: Conf, a: Endpoint, m: nat)
    requires Enabled(a, Write(m))
    ensures var a' := Next(k, a, Write(m));
      && (a'.wait == Ok || a'.wait == Flush) && a'.inbox == a.inbox && a'.h.flight == a.h.flight[m..]
      && a'.h.state == a.h.state && a'.h.transcript == a.h.transcript && a'.h.buffer == a.h.buffer
      && a'.h.readKeys == a.h.readKeys && a'.h.certRequest == a.h.certRequest && a'.h.peerCert == a.h.peerCert
      && (a'.wait == Ok ==> a'.h.flight == [])
  {}

  lemma FlowWritten(a: Endpoint, a': Endpoint, b: Endpoint, b': Endpoint, m: nat)
    requires m <= |a.h.flight| && a'.h.flight == a.h.flight[m..] && b'.inbox == b.inbox + a.h.flight[..m]
    requires a'.h.buffer == a.h.buffer && a'.h.readKeys == a.h.readKeys && a'.inbox == a.inbox && b'.h == b.h
    ensures Flow(a', b') == Flow(a, b) && Flow(b', a') == Flow(b, a)
  {
    assert a.h.flight == a.h.flight[..m] + a.h.flight[m..];
  }

  lemma ResumeKeeps(k: Params, a: Endpoint, b: Endpoint, bIsServer: bool)
    requires PairOk(k, a, b, bIsServer) && Enabled(a, Resume)
    ensures PairOk(k, Next(Side(k, !bIsServer), a, Resume), b, bIsServer)
  {
    hide PairOk, Honest, Follows, HsOk, Behind, SomeBehind, Rest, Flow;
    PairMeans(k, a, b, bIsServer);
    HonestFollows(k, a, !bIsServer);
    ResumeFollows(k, a, !bIsServer);
    var a' := a.(wait := Ok);
    FlowWait(a, b, Ok);
    RestUnmoved(k, a, a', !bIsServer);
    PairStays(k, a, a', b, b, bIsServer);
    PairFrom(k, a', b, bIsServer);
  }

  lemma FlowWait(a: Endpoint, b: Endpoint, wait: Wait)
    ensures Flow(a.(wait := wait), b) == Flow(a, b) && Flow(b, a.(wait := wait)) == Flow(b, a)
  {}

  lemma PairStays(k: Params, a: Endpoint, a': Endpoint, b: Endpoint, b': Endpoint, bIsServer: bool)
    requires SomeBehind(k, a, b, bIsServer) || SomeBehind(k, b, a, !bIsServer)
    requires RestOf(k, a', !bIsServer) == RestOf(k, a, !bIsServer) && RestOf(k, b', bIsServer) == RestOf(k, b, bIsServer)
    requires Flow(a', b') == Flow(a, b) && Flow(b', a') == Flow(b, a)
    requires a'.h.transcript == a.h.transcript && b'.h.transcript == b.h.transcript
    ensures SomeBehind(k, a', b', bIsServer) || SomeBehind(k, b', a', !bIsServer)
  {
    hide Behind, RestOf, Flow;
    assert !(!bIsServer) == bIsServer;
    if SomeBehind(k, a, b, bIsServer) {
      var n: nat :| Behind(k, a, b, bIsServer, n);
      StaysBehind(k, a, a', b, b', bIsServer, n);
      assert Behind(k, a', b', bIsServer, n);
    } else {
      var n: nat :| Behind(k, b, a, !bIsServer, n);
      StaysBehind(k, b, b', a, a', !bIsServer, n);
      assert Behind(k, b', a', !bIsServer, n);
    }
  }

  // ------------------------------------------------------ every run of the system

  lemma StartOk(k: Params)
    ensures SystemOk(k, Beginning())
  {
    hide Behind, Follows, Tail, Rest;
    StartFollows(k, false);
    StartFollows(k, true);
    StartBehind(k);
    assert Behind(k, Init(false), Init(true), true, 0);
  }

  lemma StartFollows(k: Params, server: bool)
    ensures Honest(k, Init(server), server)
  {
    InitOk(Side(k, server));
    hide Coherent, Marks, Made, At;
    PlaceStartConnect(Side(k, server));
    PlaceStartAccept(Side(k, server));
  }

  lemma StartBehind(k: Params)
    ensures Behind(k, Init(false), Init(true), true, 0)
  {
    hide Tail, At, IsItem;
    PlaceStartConnect(Side(k, false));
    PlaceStartAccept(Side(k, true));
    NoMessages();
  }

  lemma SystemKeeps(k: Params, y: System, server: bool, m: Move)
    requires SystemOk(k, y) && Allowed(y, server, m)
    requires Agreed(k) || Get(Moved(k, y, server, m), server).wait != Error
    ensures SystemOk(k, Moved(k, y, server, m))
  {
    hide Agreed, PairOk, Next;
    if server {
      PairIsSymmetric(k, y.client, y.server, true);
      PairKeeps(k, y.server, y.client, false, m);
      PairIsSymmetric(k, Get(Moved(k, y, server, m), true), Get(Moved(k, y, server, m), false), false);
    } else {
      PairKeeps(k, y.client, y.server, true, m);
    }
  }

  lemma MachineWaits(k: Conf, a: Endpoint, c: Choice)
    requires Enabled(a, Machine(c))
    ensures Next(k, a, Machine(c)).wait == Step(k, a.h, c).wait
  {}

  lemma PairKeeps(k: Params, a: Endpoint, b: Endpoint, bIsServer: bool, m: Move)
    requires PairOk(k, a, b, bIsServer) && Enabled(a, m) && !m.Arrive? && (m.Machine? ==> !m.c.Fail?)
    requires Agreed(k) || Next(Side(k, !bIsServer), a, m).wait != Error
    ensures PairOk(k, Next(Side(k, !bIsServer), a, m), b.(inbox := b.inbox + Written(a, m)), bIsServer)
  {
    hide Agreed, PairOk, Next;
    assert !m.Write? ==> b.inbox + Written(a, m) == b.inbox;
    match m
    case Machine(c) => MachineWaits(Side(k, !bIsServer), a, c); MachineKeeps(k, a, b, bIsServer, c);
    case Open => OpenKeeps(k, a, b, bIsServer);
    case Write(n) => WriteKeeps(k, a, b, bIsServer, n);
    case Resume => ResumeKeeps(k, a, b, bIsServer);
  }

  /** The state after a run of the system, in which each pair says which side moves and how. */
  function SystemRun(k: Params, moves: seq<(bool, Move)>): (y: seq<System>)
    ensures |y| <= 1
    decreases |moves|
  {
    if moves == [] then [Beginning()]
    else
      var y, last := SystemRun(k, moves[..|moves| - 1]), moves[|moves| - 1];
      if y != [] && Allowed(y[0], last.0, last.1) then [Moved(k, y[0], last.0, last.1)] else []
  }

  lemma {:induction false} RunsAreOk(k: Params, moves: seq<(bool, Move)>, y: System)
    requires Agreed(k) && SystemRun(k, moves) == [y]
    ensures SystemOk(k, y)
    decreases |moves|
  {
    hide Agreed, SystemOk, Moved, Allowed;
    if moves == [] {
      StartOk(k);
    } else {
      var t, last := SystemRun(k, moves[..|moves| - 1])[0], moves[|moves| - 1];
      RunsAreOk(k, moves[..|moves| - 1], t);
      SystemKeeps(k, t, last.0, last.1);
    }
  }

  // ------------------------------------------------------ no deadlock, and agreement

  predicate IsComplete(e: Endpoint) { e.h.state == Done && e.wait == Ok }

  /** No move is allowed: the endpoint is done, or it waits for a record and none has arrived. */
  predicate CannotMove(e: Endpoint)
  {
    IsComplete(e) || ((e.wait == ReadMessage || e.wait == ReadChangeCipherSpec) && e.inbox == [])
  }

  lemma CannotMoveIsExact(y: System, server: bool)
    requires Get(y, server).wait != Error
    ensures CannotMove(Get(y, server)) <==> forall m :: !Allowed(y, server, m)
  {
    var e := Get(y, server);
    if !CannotMove(e) {
      var m := if e.wait == Ok then Machine(Proceed(0)) else if e.wait == Flush then Write(0)
               else if e.wait == Async || e.wait == EarlyReturn then Resume else Open;
      assert Allowed(y, server, m);
    }
  }

  /** What an endpoint that cannot move still expects: nothing, or something of its peer. */
  lemma IdleExpects(k: Params, e: Endpoint, server: bool)
    requires Honest(k, e, server) && CannotMove(e)
    ensures e.h.flight == []
    ensures IsComplete(e) ==> RestOf(k, e, server) == []
    ensures !IsComplete(e) ==> RestOf(k, e, server) != [] && RestOf(k, e, server)[0].byServer == !server
    ensures e.wait == ReadChangeCipherSpec ==> RestOf(k, e, server) != [] && RestOf(k, e, server)[0].what.TheCcs?
    ensures e.wait == ReadMessage ==> e.h.buffer == []
  {
    hide HsOk, CertKnown, At, Tail, Follows, AwaitsMessage;
    var ke := Side(k, server);
    FollowsOk(ke, e.h, e.wait);
    if IsComplete(e) {
      PlaceDone(ke);
      AtNothing(k);
    } else if e.wait == ReadChangeCipherSpec {
      StateBeforeCcs(ke, e.h);
      PlaceProcessServerCcs(ke);
      PlaceProcessClientCcs(ke);
    } else {
      AwaitsPeer(ke, e.h);
    }
  }

  lemma StateBeforeCcs(k: Conf, h: Hs)
    requires HsOk(k, h, ReadChangeCipherSpec)
    ensures h.state == ProcessClientCcs || h.state == ProcessServerCcs
  {
    hide Coherent, Marks, Made, At;
  }

  lemma AwaitsPeer(k: Conf, h: Hs)
    requires AwaitsMessage(k, h)
    ensures Rest(k, h.state, ReadMessage) != [] && Rest(k, h.state, ReadMessage)[0].byServer != k.server
  {
    hide At, Tail;
  }

  lemma EvenMeans(k: Params, a: Endpoint, b: Endpoint, bIsServer: bool)
    requires Behind(k, a, b, bIsServer, 0)
    ensures RestOf(k, a, !bIsServer) == RestOf(k, b, bIsServer) && a.h.transcript == b.h.transcript
  {
    hide Rest, AreItems;
    BehindByNone(k, a, b, bIsServer, 0);
    NoMessages();
    assert a.h.transcript + [] == a.h.transcript;
  }

  /** When neither can move, nothing is on the way, and both are done. */
  lemma PairIdle(k: Params, a: Endpoint, b: Endpoint, bIsServer: bool, n: nat)
    requires Behind(k, a, b, bIsServer, n) && Honest(k, a, !bIsServer) && Honest(k, b, bIsServer)
    requires CannotMove(a) && CannotMove(b)
    ensures IsComplete(a) && IsComplete(b) && a.h.transcript == b.h.transcript
  {
    hide Behind, Honest, Rest, AreItems, MessagesIn, IsMessage;
    IdleExpects(k, a, !bIsServer);
    IdleExpects(k, b, bIsServer);
    if n > 0 {
      BehindFirst(k, a, b, bIsServer, n);
      BehindByNone(k, a, b, bIsServer, n);
    }
    assert n == 0;
    EvenMeans(k, a, b, bIsServer);
  }

  /** In no run of honest endpoints with agreed parameters does either fail; and as long as they
      are not both done, one of them can move. */
  lemma NoDeadlock(k: Params, moves: seq<(bool, Move)>, y: System)
    requires Agreed(k) && SystemRun(k, moves) == [y]
    ensures y.client.wait != Error && y.server.wait != Error
    ensures (IsComplete(y.client) && IsComplete(y.server)) || exists server, m :: Allowed(y, server, m)
  {
    hide Agreed, Behind, SomeBehind, Follows, Allowed;
    RunsAreOk(k, moves, y);
    if CannotMove(y.client) && CannotMove(y.server) {
      IdlePair(k, y.client, y.server, true);
    } else {
      CannotMoveIsExact(y, false);
      CannotMoveIsExact(y, true);
    }
  }

  lemma IdlePair(k: Params, a: Endpoint, b: Endpoint, bIsServer: bool)
    requires PairOk(k, a, b, bIsServer) && CannotMove(a) && CannotMove(b)
    ensures IsComplete(a) && IsComplete(b) && a.h.transcript == b.h.transcript
  {
    hide Behind, Honest;
    if SomeBehind(k, a, b, bIsServer) {
      var n: nat :| Behind(k, a, b, bIsServer, n);
      PairIdle(k, a, b, bIsServer, n);
    } else {
      var n: nat :| Behind(k, b, a, !bIsServer, n);
      PairIdle(k, b, a, !bIsServer, n);
    }
  }

  /** When both are done, their transcripts are the same, and every Finished of either was
      computed, and checked, over a part of it that both share. */
  lemma SameTranscript(k: Params, moves: seq<(bool, Move)>, y: System)
    requires Agreed(k) && SystemRun(k, moves) == [y] && IsComplete(y.client) && IsComplete(y.server)
    ensures y.client.h.transcript == y.server.h.transcript
    ensures y.client.h.transcript == Messages(y.client.h.history) && y.server.h.transcript == Messages(y.server.h.history)
    ensures forall i :: 0 <= i < |y.client.h.history| ==> FinishedOk(false, y.client.h.history[i], y.client.h.history[..i])
    ensures forall i :: 0 <= i < |y.server.h.history| ==> FinishedOk(true, y.server.h.history[i], y.server.h.history[..i])
  {
    RunsAreOk(k, moves, y);
    IdlePair(k, y.client, y.server, true);
    hide Behind, SomeBehind, FinishedOk;
    HonestIsCoherent(k, y.client, false);
    HonestIsCoherent(k, y.server, true);
  }

  lemma HonestIsCoherent(k: Params, e: Endpoint, server: bool)
    requires Honest(k, e, server)
    ensures Coherent(server, BooksOf(e.h))
  {
    hide Coherent, Marks, Made, At;
  }

  // ------------------------------------------------------ every run comes to its end

  /** A move that gets somewhere: no callback asks to be called again, and writing writes. */
  predicate Effective(k: Params, y: System, server: bool, m: Move)
  {
    Allowed(y, server, m) && GetsSomewhere(Side(k, server), Get(y, server), m)
  }

  predicate GetsSomewhere(k: Conf, e: Endpoint, m: Move)
    requires Enabled(e, m)
  {
    (m.Machine? ==> Next(k, e, m).wait != Async) && (m.Write? ==> m.n > 0 || e.h.flight == [])
  }

  function WaitCost(wait: Wait): nat
  {
    match wait
    case Ok => 1
    case Flush => 2
    case Async => 2
    case EarlyReturn => 2
    case _ => 0
  }

  /** What is left to do for an endpoint. */
  function Todo(k: Params, e: Endpoint, server: bool): nat
  {
    4 * |RestOf(k, e, server)| + 2 * Rank(Side(k, server), e.h.state) + WaitCost(e.wait) + 3 * |e.h.flight| + 2 * |e.inbox|
  }

  lemma MachineGoes(k: Params, a: Endpoint, b: Endpoint, bIsServer: bool, c: Choice)
    requires PairOk(k, a, b, bIsServer) && Enabled(a, Machine(c)) && !c.Fail?
    requires Agreed(k) || Step(Side(k, !bIsServer), a.h, c).wait != Error
    ensures Goes(Side(k, !bIsServer), a.h, Step(Side(k, !bIsServer), a.h, c))
  {
    hide Agreed, PairOk, Honest, Behind, SomeBehind, Goes, Step, OpenRecord, Side;
    PairMeans(k, a, b, bIsServer);
    HonestFollows(k, a, !bIsServer);
    var isBehind, n := WhoIsBehind(k, a, b, bIsServer);
    if isBehind {
      BehindKeeps(k, a, b, bIsServer, n, c);
    } else {
      AheadKeeps(k, b, a, !bIsServer, n, c);
    }
  }

  /** What a step sends is no longer to come. */
  lemma GoesCounts(k: Params, a: Endpoint, r: Stepped, aIsServer: bool)
    requires Goes(Side(k, aIsServer), a.h, r) && a.wait == Ok
    ensures 4 * |RestOf(k, Endpoint(r.hs, r.wait, a.inbox), aIsServer)| + 3 * |r.hs.flight| <= 4 * |RestOf(k, a, aIsServer)| + 3 * |a.h.flight|
  {
    hide Rest, Follows, IsItem, MessagesIn;
  }

  lemma StepCounts(k: Conf, h: Hs, c: Choice)
    requires HsOk(k, h, Ok)
    ensures var r := Step(k, h, c);
      r.wait == Error || r.wait == Async || (r.wait == ReadMessage && r.hs.state == h.state) || Rank(k, r.hs.state) < Rank(k, h.state)
  {
    hide HsOk, Step, Rank;
    MachineOk(k, h, c);
  }

  lemma MachineCounts(k: Params, a: Endpoint, b: Endpoint, bIsServer: bool, c: Choice)
    requires PairOk(k, a, b, bIsServer) && Enabled(a, Machine(c)) && !c.Fail?
    requires Agreed(k) || Step(Side(k, !bIsServer), a.h, c).wait != Error
    requires GetsSomewhere(Side(k, !bIsServer), a, Machine(c))
    ensures Todo(k, Next(Side(k, !bIsServer), a, Machine(c)), !bIsServer) < Todo(k, a, !bIsServer)
  {
    hide Agreed, PairOk, Goes, Step, OpenRecord, Side, RestOf, Rank, Honest, Follows, HsOk, Enabled;
    MachineGoes(k, a, b, bIsServer, c);
    PairMeans(k, a, b, bIsServer);
    HonestFollows(k, a, !bIsServer);
    EnabledOk(a, c);
    FollowsOk(Side(k, !bIsServer), a.h, a.wait);
    StepCounts(Side(k, !bIsServer), a.h, c);
    GoesCounts(k, a, Step(Side(k, !bIsServer), a.h, c), !bIsServer);
    GoesFollows(Side(k, !bIsServer), a.h, Step(Side(k, !bIsServer), a.h, c));
  }

  lemma EnabledOk(a: Endpoint, c: Choice)
    requires Enabled(a, Machine(c))
    ensures a.wait == Ok
  {}

  lemma OpenCounts(k: Params, a: Endpoint, b: Endpoint, bIsServer: bool)
    requires PairOk(k, a, b, bIsServer) && Enabled(a, Open)
    ensures Todo(k, Next(Side(k, !bIsServer), a, Open), !bIsServer) < Todo(k, a, !bIsServer)
  {
    hide PairOk, Honest, Follows, Behind, SomeBehind, Rest, Flow, Rank, AwaitsMessage, Next;
    PairMeans(k, a, b, bIsServer);
    HonestFollows(k, a, !bIsServer);
    var ka := Side(k, !bIsServer);
    var isBehind, n := WhoIsBehind(k, a, b, bIsServer);
    if !isBehind { BehindIdle(k, b, a, !bIsServer, n); }
    if a.wait == ReadMessage {
      NextIsMessage(k, a, b, bIsServer, n);
      OpenedMessage(ka, a);
      RestUnmoved(k, a, Next(ka, a, Open), !bIsServer);
    } else {
      NextIsCcs(k, a, b, bIsServer, n);
      OpenedCcs(ka, a);
      RestAfterCcs(ka, a.h.state);
    }
    assert |Next(ka, a, Open).inbox| == |a.inbox| - 1;
  }

  lemma WriteCounts(k: Params, a: Endpoint, b: Endpoint, bIsServer: bool, m: nat)
    requires Enabled(a, Write(m)) && (m > 0 || a.h.flight == [])
    ensures Todo(k, Next(Side(k, !bIsServer), a, Write(m)), !bIsServer) + Todo(k, b.(inbox := b.inbox + a.h.flight[..m]), bIsServer)
      < Todo(k, a, !bIsServer) + Todo(k, b, bIsServer)
  {
    hide Rank, Rest, Step, OpenRecord, Next;
    Wrote(Side(k, !bIsServer), a, m);
    if m == |a.h.flight| { WroteAll(Side(k, !bIsServer), a, m); }
    RestIgnores(Side(k, !bIsServer), a.h.state, Flush);
  }

  lemma WroteAll(k: Conf, a: Endpoint, m: nat)
    requires Enabled(a, Write(m)) && m == |a.h.flight|
    ensures Next(k, a, Write(m)).wait == Ok
  {}

  lemma ResumeCounts(k: Params, a: Endpoint, aIsServer: bool)
    requires Enabled(a, Resume)
    ensures Todo(k, Next(Side(k, aIsServer), a, Resume), aIsServer) < Todo(k, a, aIsServer)
  {
    hide Rank, Rest, Step, OpenRecord;
    RestIgnores(Side(k, aIsServer), a.h.state, a.wait);
  }

  lemma PairCounts(k: Params, a: Endpoint, b: Endpoint, bIsServer: bool, m: Move)
    requires PairOk(k, a, b, bIsServer) && Enabled(a, m) && !m.Arrive? && (m.Machine? ==> !m.c.Fail?)
    requires Agreed(k) || Next(Side(k, !bIsServer), a, m).wait != Error
    requires GetsSomewhere(Side(k, !bIsServer), a, m)
    ensures Todo(k, Next(Side(k, !bIsServer), a, m), !bIsServer) + Todo(k, b.(inbox := b.inbox + Written(a, m)), bIsServer)
      < Todo(k, a, !bIsServer) + Todo(k, b, bIsServer)
  {
    hide Agreed, PairOk, Next, Todo;
    assert !m.Write? ==> b.inbox + Written(a, m) == b.inbox;
    match m
    case Machine(c) => MachineWaits(Side(k, !bIsServer), a, c); MachineCounts(k, a, b, bIsServer, c);
    case Open => OpenCounts(k, a, b, bIsServer);
    case Write(n) => WriteCounts(k, a, b, bIsServer, n);
    case Resume => ResumeCounts(k, a, !bIsServer);
  }

  function TodoOfBoth(k: Params, y: System): nat { Todo(k, y.client, false) + Todo(k, y.server, true) }

  lemma MoveCounts(k: Params, y: System, server: bool, m: Move)
    requires SystemOk(k, y) && Effective(k, y, server, m)
    requires Agreed(k) || Get(Moved(k, y, server, m), server).wait != Error
    ensures TodoOfBoth(k, Moved(k, y, server, m)) < TodoOfBoth(k, y)
  {
    hide Agreed, PairOk, Next, Todo, GetsSomewhere;
    if server {
      PairIsSymmetric(k, y.client, y.server, true);
      PairCounts(k, y.server, y.client, false, m);
    } else {
      PairCounts(k, y.client, y.server, true, m);
    }
  }

  /** Each move of the run gets somewhere. */
  predicate AllEffective(k: Params, moves: seq<(bool, Move)>)
    decreases |moves|
  {
    moves == [] ||
    (AllEffective(k, moves[..|moves| - 1]) &&
     var y, last := SystemRun(k, moves[..|moves| - 1]), moves[|moves| - 1];
     y != [] && Effective(k, y[0], last.0, last.1))
  }

  /** A run in which each move gets somewhere is no longer than what there is to do at first; so it
      comes to its end, and by NoDeadlock that is the end of the handshake. */
  lemma {:induction false} RunsEnd(k: Params, moves: seq<(bool, Move)>, y: System)
    requires Agreed(k) && SystemRun(k, moves) == [y] && AllEffective(k, moves)
    ensures |moves| + TodoOfBoth(k, y) <= TodoOfBoth(k, Beginning())
    decreases |moves|
  {
    hide Agreed, SystemOk, Moved, Allowed, TodoOfBoth, Effective;
    if moves != [] {
      var t, last := SystemRun(k, moves[..|moves| - 1])[0], moves[|moves| - 1];
      RunsEnd(k, moves[..|moves| - 1], t);
      RunsAreOk(k, moves[..|moves| - 1], t);
      MoveCounts(k, t, last.0, last.1);
    }
  }

  lemma ClientReadsProceed(k: Conf, h: Hs)
    ensures DoReadServerHello(k, h, Proceed(0)).wait != Async
    ensures DoReadServerCertificate(k, h, Proceed(0)).wait != Async
    ensures DoReadCertificateStatus(k, h, Proceed(0)).wait != Async
    ensures DoVerifyServerCertificate(k, h, Proceed(0)).wait != Async
  {
    hide Coherent, Marks, SameKeys, Hash, NextMessage;
  }

  lemma ClientReadsRestProceed(k: Conf, h: Hs)
    ensures DoReadServerKeyExchange(k, h, Proceed(0)).wait != Async
    ensures DoReadCertificateRequest(k, h, Proceed(0)).wait != Async
    ensures DoReadServerHelloDone(k, h, Proceed(0)).wait != Async
    ensures DoReadServerFinished(k, h, Proceed(0)).wait != Async
  {
    hide Coherent, Marks, SameKeys, Hash, NextMessage;
  }

  lemma ClientSendsProceed(k: Conf, h: Hs)
    ensures DoStartConnect(k, h, Proceed(0)).wait != Async
    ensures DoEnterEarlyData(k, h, Proceed(0)).wait != Async
    ensures DoSendClientCertificate(k, h, Proceed(0)).wait != Async
    ensures DoSendClientKeyExchange(k, h, Proceed(0)).wait != Async
    ensures DoSendClientCertificateVerify(k, h, Proceed(0)).wait != Async
    ensures DoSendClientFinished(k, h, Proceed(0)).wait != Async
    ensures DoFinishFlight(k, h, Proceed(0)).wait != Async
    ensures DoReadSessionTicket(k, h, Proceed(0)).wait != Async
    ensures DoProcessServerCcs(k, h, Proceed(0)).wait != Async
    ensures DoFinishClientHandshake(k, h, Proceed(0)).wait != Async
  {
    hide Coherent, Marks, SameKeys, AddIf, Hash, NextMessage, Note, ChangeWriteKeys, SendFinished;
  }

  /** Only a callback that asks to be called again makes the client return for it. */
  lemma ClientProceeds(k: Conf, h: Hs)
    ensures ClientStep(k, h, Proceed(0)).wait != Async
  {
    hide DoReadServerHello, DoReadServerCertificate, DoReadCertificateStatus, DoVerifyServerCertificate,
      DoReadServerKeyExchange, DoReadCertificateRequest, DoReadServerHelloDone, DoReadServerFinished,
      DoStartConnect, DoEnterEarlyData, DoSendClientCertificate, DoSendClientKeyExchange,
      DoSendClientCertificateVerify, DoSendClientFinished, DoFinishFlight, DoReadSessionTicket,
      DoProcessServerCcs, DoFinishClientHandshake;
    ClientReadsRestProceed(k, h);
    ClientReadsProceed(k, h);
    ClientSendsProceed(k, h);
  }

  /** The same for the server. */
  lemma ServerProceeds(k: Conf, h: Hs)
    ensures ServerStep(k, h, Proceed(0)).wait != Async
  {
    hide Coherent, Marks, SameKeys, AddIf, Hash, NextMessage, Note;
  }

  /** An endpoint that can move can also get somewhere: callbacks may answer, and writes succeed. */
  lemma CanGetSomewhere(k: Params, y: System, server: bool)
    requires Get(y, server).wait != Error && !CannotMove(Get(y, server))
    ensures exists m :: Effective(k, y, server, m)
  {
    hide ClientStep, ServerStep, OpenRecord;
    var e := Get(y, server);
    var m := if e.wait == Ok then Machine(Proceed(0)) else if e.wait == Flush then Write(|e.h.flight|)
             else if e.wait == Async || e.wait == EarlyReturn then Resume else Open;
    ClientProceeds(Side(k, server), e.h);
    ServerProceeds(Side(k, server), e.h);
    assert Effective(k, y, server, m);
  }

  /** Until both are done, one of them has a move that gets somewhere. */
  lemma MoreToGet(k: Params, moves: seq<(bool, Move)>, y: System)
    requires Agreed(k) && SystemRun(k, moves) == [y]
    ensures (IsComplete(y.client) && IsComplete(y.server)) || exists server, m :: Effective(k, y, server, m)
  {
    hide Agreed, Behind, SomeBehind, Follows, Effective;
    RunsAreOk(k, moves, y);
    if CannotMove(y.client) && CannotMove(y.server) {
      IdlePair(k, y.client, y.server, true);
    } else {
      CanGetSomewhere(k, y, CannotMove(y.client));
    }
  }

  // ------------------------------------------------------ parameters that do not fit

  /** What has been read is the next entry, whoever is behind. */
  lemma PairFed(k: Params, a: Endpoint, b: Endpoint, bIsServer: bool)
    requires PairOk(k, a, b, bIsServer) && a.wait == Ok
    ensures Fed(Side(k, !bIsServer), a.h)
  {
    hide Honest, Behind, SomeBehind, Fed, Follows;
    PairMeans(k, a, b, bIsServer);
    HonestFollows(k, a, !bIsServer);
    SmallBuffer(Side(k, !bIsServer), a.h, a.wait);
    var isBehind, n := WhoIsBehind(k, a, b, bIsServer);
    if isBehind { BehindIsFed(k, a, b, bIsServer, n); } else { NothingRead(k, b, a, !bIsServer, n); }
  }

  /** Each endpoint has passed only those states that the parameters let it pass. */
  predicate BothSettled(k: Params, y: System)
  {
    Settled(Side(k, false), y.client.h.state) && Settled(Side(k, true), y.server.h.state)
  }

  lemma MachineSettles(k: Params, a: Endpoint, b: Endpoint, bIsServer: bool, c: Choice)
    requires PairOk(k, a, b, bIsServer) && Enabled(a, Machine(c)) && !c.Fail?
    requires Next(Side(k, !bIsServer), a, Machine(c)).wait != Error && Settled(Side(k, !bIsServer), a.h.state)
    ensures Settled(Side(k, !bIsServer), Next(Side(k, !bIsServer), a, Machine(c)).h.state)
  {
    hide PairOk, Honest, Step, Settled, Fed, Follows;
    PairFed(k, a, b, bIsServer);
    PairMeans(k, a, b, bIsServer);
    HonestFollows(k, a, !bIsServer);
    StepSettles(Side(k, !bIsServer), a.h, c);
  }

  lemma SameState(k: Conf, e: Endpoint, m: Move)
    requires Enabled(e, m) && !m.Machine?
    ensures Next(k, e, m).h.state == e.h.state
  {}

  lemma MoveSettles(k: Params, y: System, server: bool, m: Move)
    requires SystemOk(k, y) && BothSettled(k, y) && Allowed(y, server, m) && Get(Moved(k, y, server, m), server).wait != Error
    ensures BothSettled(k, Moved(k, y, server, m))
  {
    hide PairOk, Next, Settled;
    if !m.Machine? {
      SameState(Side(k, server), Get(y, server), m);
    } else if server {
      PairIsSymmetric(k, y.client, y.server, true);
      MachineSettles(k, y.server, y.client, false, m.c);
    } else {
      MachineSettles(k, y.client, y.server, true, m.c);
    }
  }

  lemma BeginSettled(k: Params)
    ensures BothSettled(k, Beginning())
  {
    hide At;
    PlaceStartConnect(Side(k, false));
    PlaceStartAccept(Side(k, true));
  }

  lemma DoneSettled(k: Params, y: System)
    requires BothSettled(k, y) && y.client.h.state == Done && y.server.h.state == Done
    ensures Agreed(k)
  {
    hide At;
    PlaceDone(Side(k, false));
    PlaceDone(Side(k, true));
  }

  predicate HasFailed(y: System) { y.client.wait == Error || y.server.wait == Error }

  /** Some run ends in an error. */
  ghost predicate CanFail(k: Params) { exists moves, y :: SystemRun(k, moves) == [y] && HasFailed(y) }

  lemma OneMore(k: Params, moves: seq<(bool, Move)>, y: System, server: bool, m: Move)
    requires SystemRun(k, moves) == [y] && Allowed(y, server, m)
    ensures SystemRun(k, moves + [(server, m)]) == [Moved(k, y, server, m)]
  {
    hide Moved, Allowed;
    assert (moves + [(server, m)])[..|moves|] == moves;
  }

  lemma SomeMoveCounts(k: Params, y: System) returns (server: bool, m: Move)
    requires SystemOk(k, y) && !(IsComplete(y.client) && IsComplete(y.server))
    ensures Effective(k, y, server, m)
  {
    hide Behind, SomeBehind, Follows, Effective;
    if CannotMove(y.client) && CannotMove(y.server) {
      IdlePair(k, y.client, y.server, true);
    }
    server := CannotMove(y.client);
    CanGetSomewhere(k, y, server);
    m :| Effective(k, y, server, m);
  }

  /** With parameters that do not fit, a run that goes on fails in the end. */
  lemma {:induction false} FailsInTheEnd(k: Params, moves: seq<(bool, Move)>, y: System)
    requires !Agreed(k) && SystemRun(k, moves) == [y] && SystemOk(k, y) && BothSettled(k, y)
    ensures CanFail(k)
    decreases TodoOfBoth(k, y)
  {
    hide Agreed, SystemOk, BothSettled, Moved, TodoOfBoth, SystemRun, GetsSomewhere;
    if IsComplete(y.client) && IsComplete(y.server) {
      DoneSettled(k, y);
    } else {
      var server, m := SomeMoveCounts(k, y);
      var next := Moved(k, y, server, m);
      OneMore(k, moves, y, server, m);
      if Get(next, server).wait == Error {
        assert SystemRun(k, moves + [(server, m)]) == [next] && HasFailed(next);
      } else {
        SystemKeeps(k, y, server, m);
        MoveCounts(k, y, server, m);
        MoveSettles(k, y, server, m);
        FailsInTheEnd(k, moves + [(server, m)], next);
      }
    }
  }

  /** The parameters have to fit: the handshake of two honest endpoints can fail just if they do
      not. */
  lemma AgreedIsExact(k: Params)
    ensures Agreed(k) <==> !CanFail(k)
  {
    hide Agreed, SystemOk, BothSettled, Effective, Behind, Follows;
    if Agreed(k) {
      forall moves, y | SystemRun(k, moves) == [y] ensures !HasFailed(y) { NoDeadlock(k, moves, y); }
    } else {
      StartOk(k);
      BeginSettled(k);
      assert SystemRun(k, []) == [Beginning()];
      FailsInTheEnd(k, [], Beginning());
    }
  }
}
