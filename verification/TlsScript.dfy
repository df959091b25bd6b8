/** A run of a TLS 1.0 to 1.2 handshake between honest endpoints: the records it is made of, and
    that each state of either machine sends or takes the ones that come next. */
module TlsScript {
  import opened TlsHandshake
  import opened TlsStates
  import opened TlsRuns

  /** What is still to come for an endpoint that waits for `wait`. */
  function Rest(k: Conf, st: State, wait: Wait): seq<Entry>
  {
    var rest := Tail(k.p, At(k, st).next);
    if wait == ReadChangeCipherSpec then [CcsOf(!k.server)] + rest else rest
  }

  // ------------------------------------------------------ records of the run

  predicate IsFinished(m: Message, byServer: bool, over: seq<Message>) { m == Finished(byServer, over) }

  /** A message is what the entry says, after transcript `t`. */
  predicate IsMessage(p: Params, t: seq<Message>, e: Entry, m: Message)
  {
    && e.what.Msg? && KindOf(m) == e.what.kind
    && (e.what.kind == FinishedKind ==> IsFinished(m, e.byServer, t))
    && (e.what.kind == Certificate && !e.byServer ==> (m.Message? && (m.body == 0 <==> !p.hasCert)))
  }

  predicate IsItem(p: Params, t: seq<Message>, e: Entry, item: Item)
  {
    && item.keys == e.keys
    && (if e.what.TheCcs? then item.Ccs? else item.Record? && |item.msgs| == 1 && IsMessage(p, t, e, item.msgs[0]))
  }

  /** Records that follow transcript `t` are those of the entries. */
  predicate AreItems(p: Params, t: seq<Message>, es: seq<Entry>, items: seq<Item>)
  {
    |es| == |items| && forall i :: 0 <= i < |es| ==> IsItem(p, t + MessagesIn(items[..i]), es[i], items[i])
  }

  /** From `h` to `r`, the endpoint added the records of the entries `es`, which are its own. */
  ghost predicate Sends(k: Conf, h: Hs, r: Hs, es: seq<Entry>)
  {
    && (forall i :: 0 <= i < |es| ==> es[i].byServer == k.server)
    && |h.flight| <= |r.flight| && r.flight == h.flight + r.flight[|h.flight|..]
    && AreItems(k.p, h.transcript, es, r.flight[|h.flight|..])
    && r.transcript == h.transcript + MessagesIn(r.flight[|h.flight|..])
    && r.buffer == h.buffer && r.readKeys == h.readKeys && r.certRequest == h.certRequest && r.peerCert == h.peerCert
  }

  lemma {:induction false} MessagesJoin(a: seq<Item>, b: seq<Item>)
    ensures MessagesIn(a + b) == MessagesIn(a) + MessagesIn(b)
    decreases |b|
  {
    if b == [] {
      assert a + b == a;
    } else {
      assert (a + b)[..|a + b| - 1] == a + b[..|b| - 1];
      MessagesJoin(a, b[..|b| - 1]);
    }
  }

  lemma ItemsJoin(p: Params, t: seq<Message>, es: seq<Entry>, items: seq<Item>, fs: seq<Entry>, more: seq<Item>)
    requires AreItems(p, t, es, items) && AreItems(p, t + MessagesIn(items), fs, more)
    ensures AreItems(p, t, es + fs, items + more)
  {
    hide IsItem, MessagesIn;
    var all := items + more;
    forall i | 0 <= i < |es + fs| ensures IsItem(p, t + MessagesIn(all[..i]), (es + fs)[i], all[i]) {
      if i < |es| {
        assert all[..i] == items[..i];
      } else {
        assert all[..i] == items + more[..i - |es|];
        MessagesJoin(items, more[..i - |es|]);
        assert t + (MessagesIn(items) + MessagesIn(more[..i - |es|])) == (t + MessagesIn(items)) + MessagesIn(more[..i - |es|]);
      }
    }
  }

  lemma SendsJoin(k: Conf, a: Hs, b: Hs, c: Hs, es: seq<Entry>, fs: seq<Entry>)
    requires Sends(k, a, b, es) && Sends(k, b, c, fs)
    ensures Sends(k, a, c, es + fs)
  {
    hide AreItems, MessagesIn;
    var x, y := b.flight[|a.flight|..], c.flight[|b.flight|..];
    assert c.flight[|a.flight|..] == x + y;
    MessagesJoin(x, y);
    ItemsJoin(k.p, a.transcript, es, x, fs, y);
    assert c.transcript == a.transcript + MessagesIn(x) + MessagesIn(y) == a.transcript + (MessagesIn(x) + MessagesIn(y));
  }

  lemma SendsNothing(k: Conf, h: Hs)
    ensures Sends(k, h, h, [])
  {
    assert h.flight[|h.flight|..] == [];
  }

  /** Adding one message. */
  lemma AddSends(k: Conf, h: Hs, m: Message, e: Entry)
    requires e.byServer == k.server && e.keys == h.writeKeys && IsMessage(k.p, h.transcript, e, m)
    ensures Sends(k, h, Add(k.server, h, m), [e])
  {
    hide KindOf, Messages, Coherent, Marks;
    var item := Record([m], h.writeKeys);
    var r := Add(k.server, h, m);
    assert r.flight[|h.flight|..] == [item] && h.transcript + [] == h.transcript;
    OneItem(item);
    assert [item][..0] == [];
    assert IsItem(k.p, h.transcript, e, item);
  }

  lemma OneItem(item: Item)
    ensures MessagesIn([item]) == (if item.Record? then item.msgs else []) && MessagesIn([]) == []
  {
    assert [item][..0] == [];
  }

  lemma CcsSends(k: Conf, h: Hs)
    requires h.writeKeys == 0
    ensures Sends(k, h, ChangeWriteKeys(k.server, h), [CcsOf(k.server)])
  {
    var r := ChangeWriteKeys(k.server, h);
    assert r.flight[|h.flight|..] == [Ccs(0)];
    OneItem(Ccs(0));
  }

  // ------------------------------------------------------ each state follows the run

  predicate CertKnown(k: Conf, h: Hs)
  {
    match At(k, h.state).stage
    case Unknown => !h.certRequest && !h.peerCert
    case RequestKnown => h.certRequest == Asks(k.p)
    case NoneYet => h.certRequest == Asks(k.p) && !h.peerCert
    case CertificateKnown => h.peerCert == (Asks(k.p) && k.p.hasCert)
    case Past => true
  }

  /** The next entry of the run is a message of the peer, under the keys that are read with. */
  predicate AwaitsMessage(k: Conf, h: Hs)
  {
    var rest := Rest(k, h.state, Ok);
    rest != [] && rest[0].byServer != k.server && rest[0].what.Msg? && rest[0].keys == h.readKeys
  }

  /** What an endpoint of an honest run keeps. */
  ghost predicate Follows(k: Conf, h: Hs, wait: Wait)
  {
    && HsOk(k, h, wait) && CertKnown(k, h) && |h.buffer| <= 1
    && (wait != Flush && !At(k, h.state).sending ==> h.flight == [])
    && (wait == ReadMessage ==> h.buffer == [] && AwaitsMessage(k, h) && !At(k, h.state).sending)
  }

  /** What has been read is the next entry of the run. */
  predicate Fed(k: Conf, h: Hs)
  {
    h.buffer == [] ||
    (|h.buffer| == 1 && AwaitsMessage(k, h) && IsMessage(k.p, h.transcript, Rest(k, h.state, Ok)[0], h.buffer[0]))
  }

  /** The endpoint took the message it had read, which was the next entry. */
  ghost predicate Takes(h: Hs, r: Hs)
  {
    h.buffer != [] && r.buffer == h.buffer[1..] && r.flight == h.flight && r.transcript == h.transcript + [h.buffer[0]]
  }

  /** A state of an honest run does not fail, and follows the run: it sends the next entries, none
      or some, or it takes the message that is next. */
  ghost predicate Goes(k: Conf, h: Hs, r: Stepped)
  {
    var rest, rest' := Rest(k, h.state, Ok), Rest(k, r.hs.state, r.wait);
    && r.wait != Error && Follows(k, r.hs, r.wait) && (r.hs.buffer != [] ==> r.hs.readKeys == h.readKeys)
    && |rest'| <= |rest| && rest[|rest| - |rest'|..] == rest'
    && (Sends(k, h, r.hs.(readKeys := h.readKeys), rest[..|rest| - |rest'|]) || (|rest| == |rest'| + 1 && Takes(h, r.hs)))
  }

  lemma Keeps(k: Conf, h: Hs)
    requires Follows(k, h, Ok)
    ensures At(k, h.state).own && (At(k, h.state).full ==> !k.p.resumed) && CertKnown(k, h)
    ensures h.readKeys == (if At(k, h.state).peers >= 2 then 1 else 0)
    ensures h.writeKeys == (if At(k, h.state).sent then 1 else 0)
  {
    hide AwaitsMessage, CertKnown, Coherent, Marks, Made, At;
  }

  lemma Stepping(k: Conf, h: Hs, c: Choice)
    requires Follows(k, h, Ok)
    ensures Lands(k, Step(k, h, c))
  {
    hide AwaitsMessage, CertKnown, HsOk, Step, At;
    MachineOk(k, h, c);
  }

  /** What has been read is of the kind that comes next. */
  lemma FedKind(k: Conf, h: Hs)
    requires Fed(k, h) && h.buffer != []
    ensures Rest(k, h.state, Ok) != [] && Rest(k, h.state, Ok)[0].what == Msg(KindOf(h.buffer[0]))
    ensures KindOf(h.buffer[0]) == FinishedKind ==>
      IsFinished(h.buffer[0], Rest(k, h.state, Ok)[0].byServer, h.transcript)
  {
    hide KindOf, Rest, IsFinished;
  }

  predicate Unmoved(h: Hs, r: Hs)
  {
    && r.state == h.state && r.buffer == h.buffer && r.flight == h.flight && r.transcript == h.transcript
    && r.certRequest == h.certRequest && r.peerCert == h.peerCert && SameKeys(h, r)
  }

  lemma NextTakes(h: Hs, next: State)
    requires h.buffer != []
    ensures var r := NextMessage(Hash(h, h.buffer[0])).(state := next); Takes(h, r) && SameKeys(h, r) && r.peerCert == h.peerCert
  {}

  /** Reading the message that is expected. */
  lemma OneRead(server: bool, h: Hs, kind: Kind, c: Choice, next: State)
    requires kind != FinishedKind && !c.Fail?
    ensures var r := ReadOne(server, h, kind, c, next);
      && (h.buffer == [] ==> r.wait == ReadMessage && Unmoved(h, r.hs))
      && (h.buffer != [] && KindOf(h.buffer[0]) == kind ==>
          r.wait == Ok && r.hs.state == next && Takes(h, r.hs) && SameKeys(h, r.hs) && r.hs.peerCert == h.peerCert)
  {
    hide Messages, Marks, Coherent, Hash, NextMessage, KindOf, Takes;
    if h.buffer != [] { NextTakes(h, next); }
  }

  lemma FinishedRead(server: bool, h: Hs, next: State)
    ensures var r := ReadFinished(server, h, next);
      && (h.buffer == [] ==> r.wait == ReadMessage && Unmoved(h, r.hs))
      && (h.buffer != [] && IsFinished(h.buffer[0], !server, h.transcript) ==>
          r.wait == Ok && r.hs.state == next && Takes(h, r.hs) && SameKeys(h, r.hs) && r.hs.peerCert == h.peerCert)
  {
    hide Messages, Marks, Coherent, Hash, NextMessage, KindOf, Takes;
    if h.buffer != [] { NextTakes(h, next); }
  }

  ghost predicate Lands(k: Conf, r: Stepped) { r.wait != Error ==> HsOk(k, r.hs, r.wait) }

  lemma SameRest(k: Conf, a: State, b: State, wait: Wait)
    requires At(k, a).next == At(k, b).next && wait != ReadChangeCipherSpec
    ensures Rest(k, a, Ok) == Rest(k, b, wait)
  {
    hide At, Tail;
  }

  /** Nothing more has to be known of the client's certificate. */
  predicate StageKept(k: Conf, h: Hs, r: Hs)
  {
    && (At(k, r.state).stage == At(k, h.state).stage || At(k, r.state).stage == Past)
    && r.certRequest == h.certRequest && r.peerCert == h.peerCert
  }

  lemma CertStays(k: Conf, h: Hs, r: Hs)
    requires CertKnown(k, h) && StageKept(k, h, r)
    ensures CertKnown(k, r)
  {
    hide At;
  }

  lemma FollowsCert(k: Conf, h: Hs)
    requires Follows(k, h, Ok)
    ensures CertKnown(k, h)
  {
    hide At, CertKnown, HsOk, AwaitsMessage;
  }

  /** What is to be shown of a step that has to wait for a message, */
  lemma Blocked(k: Conf, h: Hs, r: Stepped, e: Entry)
    requires Follows(k, h, Ok) && Lands(k, r) && r.wait == ReadMessage && Unmoved(h, r.hs) && h.buffer == []
    requires Rest(k, h.state, Ok) != [] && Rest(k, h.state, Ok)[0] == e
    requires e.byServer != k.server && e.what.Msg? && e.keys == h.readKeys && !At(k, h.state).sending
    ensures Goes(k, h, r)
  {
    hide HsOk, CertKnown, At, Goes, Tail;
    FollowsCert(k, h);
    CertStays(k, h, r.hs);
    StaysKnowing(k, h, r);
  }

  /** of one that neither sends nor takes anything, */
  lemma StaysKnowing(k: Conf, h: Hs, r: Stepped)
    requires Follows(k, h, Ok) && r.wait != Error && Lands(k, r) && CertKnown(k, r.hs)
    requires r.hs.flight == h.flight && r.hs.buffer == h.buffer && (h.buffer == [] || r.hs.readKeys == h.readKeys)
    requires r.hs.transcript == h.transcript && r.hs.certRequest == h.certRequest && r.hs.peerCert == h.peerCert
    requires At(k, h.state).sending ==> At(k, r.hs.state).sending
    requires r.wait == ReadMessage ==> h.buffer == [] && AwaitsMessage(k, r.hs) && !At(k, r.hs.state).sending
    requires Rest(k, h.state, Ok) == Rest(k, r.hs.state, r.wait)
    ensures Goes(k, h, r)
  {
    hide Rest, HsOk, CertKnown, AwaitsMessage, AreItems, MessagesIn, At;
    SendsNothing(k, h);
    var rest := Rest(k, h.state, Ok);
    assert r.hs.flight[|h.flight|..] == h.flight[|h.flight|..];
    assert rest[..0] == [] && rest[0..] == rest;
  }

  lemma Stays(k: Conf, h: Hs, r: Stepped)
    requires Follows(k, h, Ok) && r.wait != Error && Lands(k, r) && StageKept(k, h, r.hs)
    requires r.hs.flight == h.flight && r.hs.buffer == h.buffer && r.hs.transcript == h.transcript
    requires h.buffer == [] || r.hs.readKeys == h.readKeys
    requires At(k, h.state).sending ==> At(k, r.hs.state).sending
    requires r.wait != ReadMessage && Rest(k, h.state, Ok) == Rest(k, r.hs.state, r.wait)
    ensures Goes(k, h, r)
  {
    hide Rest, Follows, Lands, CertKnown, AwaitsMessage, Goes, At;
    FollowsCert(k, h);
    CertStays(k, h, r.hs);
    StaysKnowing(k, h, r);
  }

  /** of one that takes a message, */
  lemma TookKnowing(k: Conf, h: Hs, r: Stepped, e: Entry)
    requires Follows(k, h, Ok) && Lands(k, r) && CertKnown(k, r.hs)
    requires Takes(h, r.hs) && !At(k, h.state).sending && (r.wait == Ok || r.wait == ReadChangeCipherSpec)
    requires Rest(k, h.state, Ok) == [e] + Rest(k, r.hs.state, r.wait)
    ensures Goes(k, h, r)
  {
    hide Rest, HsOk, CertKnown, AwaitsMessage, At;
  }

  lemma Took(k: Conf, h: Hs, r: Stepped, e: Entry)
    requires Follows(k, h, Ok) && Lands(k, r) && StageKept(k, h, r.hs)
    requires Takes(h, r.hs) && !At(k, h.state).sending && (r.wait == Ok || r.wait == ReadChangeCipherSpec)
    requires Rest(k, h.state, Ok) == [e] + Rest(k, r.hs.state, r.wait)
    ensures Goes(k, h, r)
  {
    hide Rest, Follows, Lands, CertKnown, AwaitsMessage, Goes, At, Takes;
    FollowsCert(k, h);
    CertStays(k, h, r.hs);
    TookKnowing(k, h, r, e);
  }

  /** and of one that sends. */
  lemma Sent(k: Conf, h: Hs, x: Hs, r: Stepped, es: seq<Entry>)
    requires Follows(k, h, Ok) && Lands(k, r) && Sends(k, h, x, es) && r.hs == x.(state := r.hs.state)
    requires At(k, r.hs.state).stage == At(k, h.state).stage || At(k, r.hs.state).stage == Past
    requires r.wait == Flush || (r.wait == Ok && At(k, r.hs.state).sending)
    requires Rest(k, h.state, Ok) == es + Rest(k, r.hs.state, r.wait)
    ensures Goes(k, h, r)
  {
    hide Rest, HsOk, AwaitsMessage, CertKnown, AreItems, MessagesIn, At;
    FollowsCert(k, h);
    CertStays(k, h, r.hs);
    var rest, rest' := Rest(k, h.state, Ok), Rest(k, r.hs.state, r.wait);
    assert rest[..|es|] == es && rest[|es|..] == rest';
  }

  lemma GoEnterEarlyData(k: Conf, h: Hs, c: Choice)
    requires !k.server && Follows(k, h, Ok) && Fed(k, h) && h.state == EnterEarlyData && !c.Fail?
    requires Lands(k, DoEnterEarlyData(k, h, c))
    ensures Goes(k, h, DoEnterEarlyData(k, h, c))
  {
    hide CertKnown, Lands, At, Tail, Follows, HsOk, Coherent, Marks, Messages, Goes, MessagesIn, Sends, ReadOne,
      ReadFinished, Hash, NextMessage, Note, KindOf;
    var r := DoEnterEarlyData(k, h, c);
    PlaceEnterEarlyData(k);
    PlaceReadServerHello(k);
    Keeps(k, h);
    Stays(k, h, r);
  }

  lemma GoReadServerHello(k: Conf, h: Hs, c: Choice)
    requires !k.server && Follows(k, h, Ok) && Fed(k, h) && h.state == ReadServerHello && !c.Fail?
    requires Lands(k, DoReadServerHello(k, h, c))
    ensures Goes(k, h, DoReadServerHello(k, h, c))
  {
    hide CertKnown, Lands, At, Tail, Follows, HsOk, Coherent, Marks, Messages, Goes, MessagesIn, Sends, ReadOne,
      ReadFinished, Hash, NextMessage, Note, KindOf;
    var r := DoReadServerHello(k, h, c);
    PlaceReadServerHello(k);
    PlaceReadServerCertificate(k);
    PlaceReadSessionTicket(k);
    AtServerHello(k.p);
    Keeps(k, h);
    OneRead(false, h, ServerHello, c, if k.p.resumed then ReadSessionTicket else ReadServerCertificate);
    if h.buffer == [] {
      Blocked(k, h, r, Rest(k, ReadServerHello, Ok)[0]);
    } else {
      Took(k, h, r, Rest(k, ReadServerHello, Ok)[0]);
    }
  }

  lemma GoReadServerCertificate(k: Conf, h: Hs, c: Choice)
    requires !k.server && Follows(k, h, Ok) && Fed(k, h) && h.state == ReadServerCertificate && !c.Fail?
    requires Lands(k, DoReadServerCertificate(k, h, c))
    ensures Goes(k, h, DoReadServerCertificate(k, h, c))
  {
    hide CertKnown, Lands, At, Tail, Follows, HsOk, Coherent, Marks, Messages, Goes, MessagesIn, Sends, ReadOne,
      ReadFinished, Hash, NextMessage, Note, KindOf;
    var r := DoReadServerCertificate(k, h, c);
    PlaceReadServerCertificate(k);
    PlaceReadCertificateStatus(k);
    AtCertificate(k.p);
    Keeps(k, h);
    OneRead(false, h, Certificate, c, ReadCertificateStatus);
    if !k.p.certAuth {
      Stays(k, h, r);
    } else if h.buffer == [] {
      Blocked(k, h, r, Rest(k, ReadServerCertificate, Ok)[0]);
    } else {
      Took(k, h, r, Rest(k, ReadServerCertificate, Ok)[0]);
    }
  }

  lemma GoReadCertificateStatus(k: Conf, h: Hs, c: Choice)
    requires !k.server && Follows(k, h, Ok) && Fed(k, h) && h.state == ReadCertificateStatus && !c.Fail?
    requires Lands(k, DoReadCertificateStatus(k, h, c))
    ensures Goes(k, h, DoReadCertificateStatus(k, h, c))
  {
    hide CertKnown, Lands, At, Tail, Follows, HsOk, Coherent, Marks, Messages, Goes, MessagesIn, Sends, ReadOne,
      ReadFinished, Hash, NextMessage, Note, KindOf;
    var r := DoReadCertificateStatus(k, h, c);
    PlaceReadCertificateStatus(k);
    PlaceVerifyServerCertificate(k);
    AtStatus(k.p);
    NextOfServer(k.p);
    Keeps(k, h);
    OneRead(false, h, CertificateStatus, c, VerifyServerCertificate);
    if !k.p.status || (h.buffer != [] && KindOf(h.buffer[0]) != CertificateStatus) {
      Stays(k, h, r);
    } else if h.buffer == [] {
      Blocked(k, h, r, Rest(k, ReadCertificateStatus, Ok)[0]);
    } else {
      Took(k, h, r, Rest(k, ReadCertificateStatus, Ok)[0]);
    }
  }

  lemma GoVerifyServerCertificate(k: Conf, h: Hs, c: Choice)
    requires !k.server && Follows(k, h, Ok) && Fed(k, h) && h.state == VerifyServerCertificate && !c.Fail?
    requires Lands(k, DoVerifyServerCertificate(k, h, c))
    ensures Goes(k, h, DoVerifyServerCertificate(k, h, c))
  {
    hide CertKnown, Lands, At, Tail, Follows, HsOk, Coherent, Marks, Messages, Goes, MessagesIn, Sends, ReadOne,
      ReadFinished, Hash, NextMessage, Note;
    hide KindOf, Fed, IsMessage, SameKeys, Asks, Rest;
    PlaceVerifyServerCertificate(k);
    PlaceReadServerKeyExchange(k);
    Keeps(k, h);
    if k.p.certAuth && c.Retry? {
      SameRest(k, h.state, h.state, Async);
      Stays(k, h, Stepped(h, Async));
    } else {
      SameRest(k, h.state, ReadServerKeyExchange, Ok);
      Stays(k, h, GoTo(h, ReadServerKeyExchange));
    }
  }

  lemma GoReadServerKeyExchange(k: Conf, h: Hs, c: Choice)
    requires !k.server && Follows(k, h, Ok) && Fed(k, h) && h.state == ReadServerKeyExchange && !c.Fail?
    requires Agreed(k.p) || DoReadServerKeyExchange(k, h, c).wait != Error
    requires Lands(k, DoReadServerKeyExchange(k, h, c))
    ensures Goes(k, h, DoReadServerKeyExchange(k, h, c))
  {
    hide CertificateFits, CertKnown, Lands, At, Tail, Follows, HsOk, Coherent, Marks, Messages, Goes, MessagesIn,
      Sends, ReadOne, ReadFinished, Hash, NextMessage, Note, KindOf;
    var r := DoReadServerKeyExchange(k, h, c);
    PlaceReadServerKeyExchange(k);
    PlaceReadCertificateRequest(k);
    AtServerKeys(k.p);
    NextOfServer(k.p);
    Keeps(k, h);
    OneRead(false, h, ServerKeyExchange, c, ReadCertificateRequest);
    if h.buffer != [] && KindOf(h.buffer[0]) != ServerKeyExchange {
      Stays(k, h, r);
    } else if h.buffer == [] {
      Blocked(k, h, r, Rest(k, ReadServerKeyExchange, Ok)[0]);
    } else {
      Took(k, h, r, Rest(k, ReadServerKeyExchange, Ok)[0]);
    }
  }

  lemma GoReadCertificateRequest(k: Conf, h: Hs, c: Choice)
    requires !k.server && Follows(k, h, Ok) && Fed(k, h) && h.state == ReadCertificateRequest && !c.Fail?
    requires Lands(k, DoReadCertificateRequest(k, h, c))
    ensures Goes(k, h, DoReadCertificateRequest(k, h, c))
  {
    hide AwaitsMessage, Lands, At, Tail, Follows, HsOk, Coherent, Marks, Messages, Goes, MessagesIn, Sends, ReadOne,
      ReadFinished, Hash, NextMessage, Note, KindOf;
    var r := DoReadCertificateRequest(k, h, c);
    PlaceReadCertificateRequest(k);
    PlaceReadServerHelloDone(k);
    AtRequest(k.p);
    NextOfServer(k.p);
    Keeps(k, h);
    OneRead(false, h, CertificateRequest, c, ReadServerHelloDone);
    if !k.p.certAuth || (h.buffer != [] && KindOf(h.buffer[0]) == ServerHelloDone) {
      StaysKnowing(k, h, r);
    } else if h.buffer == [] {
      Blocked(k, h, r, Rest(k, ReadCertificateRequest, Ok)[0]);
    } else {
      TookKnowing(k, h, r, Rest(k, ReadCertificateRequest, Ok)[0]);
    }
  }

  lemma GoReadServerHelloDone(k: Conf, h: Hs, c: Choice)
    requires !k.server && Follows(k, h, Ok) && Fed(k, h) && h.state == ReadServerHelloDone && !c.Fail?
    requires Lands(k, DoReadServerHelloDone(k, h, c))
    ensures Goes(k, h, DoReadServerHelloDone(k, h, c))
  {
    hide CertKnown, Lands, At, Tail, Follows, HsOk, Coherent, Marks, Messages, Goes, MessagesIn, Sends, ReadOne,
      ReadFinished, Hash, NextMessage, Note, KindOf;
    var r := DoReadServerHelloDone(k, h, c);
    PlaceReadServerHelloDone(k);
    PlaceSendClientCertificate(k);
    AtHelloDone(k.p);
    Keeps(k, h);
    OneRead(false, h, ServerHelloDone, c, SendClientCertificate);
    if h.buffer == [] {
      Blocked(k, h, r, Rest(k, ReadServerHelloDone, Ok)[0]);
    } else {
      Took(k, h, r, Rest(k, ReadServerHelloDone, Ok)[0]);
    }
  }

  lemma GoFinishFlight(k: Conf, h: Hs, c: Choice)
    requires !k.server && Follows(k, h, Ok) && Fed(k, h) && h.state == FinishFlight && !c.Fail?
    requires Lands(k, DoFinishFlight(k, h, c))
    ensures Goes(k, h, DoFinishFlight(k, h, c))
  {
    hide CertKnown, Lands, At, Tail, Follows, HsOk, Coherent, Marks, Messages, Goes, MessagesIn, Sends, ReadOne,
      ReadFinished, Hash, NextMessage, Note;
    hide KindOf, Fed, IsMessage, SameKeys, Asks, Rest;
    PlaceFinishFlight(k);
    PlaceReadSessionTicket(k);
    PlaceFinishClientHandshake(k);
    Keeps(k, h);
    if k.p.resumed {
      SameRest(k, h.state, FinishClientHandshake, Ok);
      Stays(k, h, GoTo(h, FinishClientHandshake));
    } else {
      var wait := if k.p.falseStart then EarlyReturn else Ok;
      SameRest(k, h.state, ReadSessionTicket, wait);
      Stays(k, h, Stepped(h.(state := ReadSessionTicket), wait));
    }
  }

  lemma GoReadSessionTicket(k: Conf, h: Hs, c: Choice)
    requires !k.server && Follows(k, h, Ok) && Fed(k, h) && h.state == ReadSessionTicket && !c.Fail?
    requires Lands(k, DoReadSessionTicket(k, h, c))
    ensures Goes(k, h, DoReadSessionTicket(k, h, c))
  {
    hide CertKnown, Lands, At, Tail, Follows, HsOk, Coherent, Marks, Messages, Goes, MessagesIn, Sends, ReadOne,
      ReadFinished, Hash, NextMessage, Note, KindOf;
    var r := DoReadSessionTicket(k, h, c);
    PlaceReadSessionTicket(k);
    PlaceProcessServerCcs(k);
    AtTicket(k.p);
    Keeps(k, h);
    OneRead(false, h, NewSessionTicket, c, ProcessServerCcs);
    if !k.p.ticket {
      Stays(k, h, r);
    } else if h.buffer == [] {
      Blocked(k, h, r, Rest(k, ReadSessionTicket, Ok)[0]);
    } else {
      Took(k, h, r, Rest(k, ReadSessionTicket, Ok)[0]);
    }
  }

  lemma ReadKeysChange(k: Conf, h: Hs, c: Choice, next: State)
    requires Follows(k, h, Ok) && !c.Fail? && h.buffer == [] && Lands(k, ChangeReadKeys(k.server, h, c, next))
    requires At(k, h.state).next == At(k, next).next && At(k, next).stage == Past && !At(k, h.state).sending
    ensures Goes(k, h, ChangeReadKeys(k.server, h, c, next))
  {
    hide At, Follows, Lands, Goes, Rest, Note;
    var r := ChangeReadKeys(k.server, h, c, next);
    NoteKeeps(k.server, h);
    SameRest(k, h.state, next, Ok);
    Stays(k, h, r);
  }

  lemma NoteKeeps(server: bool, h: Hs)
    ensures var r := Note(server, h, ChangedReadKeys);
      && r.flight == h.flight && r.buffer == h.buffer && r.transcript == h.transcript
      && r.certRequest == h.certRequest && r.peerCert == h.peerCert
  {}

  /** What comes next is under the new keys. */
  lemma NothingReadServer(k: Conf, h: Hs)
    requires !k.server && Follows(k, h, Ok) && Fed(k, h) && h.state == ProcessServerCcs
    ensures h.buffer == []
  {
    hide At, Follows, IsMessage, Tail;
    PlaceProcessServerCcs(k);
    AtServerFinished(k.p);
    Keeps(k, h);
  }

  lemma GoProcessServerCcs(k: Conf, h: Hs, c: Choice)
    requires !k.server && Follows(k, h, Ok) && Fed(k, h) && h.state == ProcessServerCcs && !c.Fail?
    requires Lands(k, DoProcessServerCcs(k, h, c))
    ensures Goes(k, h, DoProcessServerCcs(k, h, c))
  {
    hide At, Follows, Lands, Goes, ChangeReadKeys, Rest, IsMessage;
    PlaceProcessServerCcs(k);
    PlaceReadServerFinished(k);
    NothingReadServer(k, h);
    ReadKeysChange(k, h, c, ReadServerFinished);
  }

  lemma GoReadServerFinished(k: Conf, h: Hs, c: Choice)
    requires !k.server && Follows(k, h, Ok) && Fed(k, h) && h.state == ReadServerFinished && !c.Fail?
    requires Lands(k, DoReadServerFinished(k, h, c))
    ensures Goes(k, h, DoReadServerFinished(k, h, c))
  {
    hide CertKnown, Lands, At, Tail, Follows, HsOk, Coherent, Marks, Messages, Goes, MessagesIn, Sends, ReadOne,
      ReadFinished, Hash, NextMessage, Note, KindOf, IsFinished, Fed, IsMessage;
    var r := DoReadServerFinished(k, h, c);
    PlaceReadServerFinished(k);
    PlaceSendClientFinished(k);
    PlaceFinishClientHandshake(k);
    AtServerFinished(k.p);
    Keeps(k, h);
    FinishedRead(false, h, if k.p.resumed then SendClientFinished else FinishClientHandshake);
    if h.buffer == [] {
      Blocked(k, h, r, Rest(k, ReadServerFinished, Ok)[0]);
    } else {
      FedKind(k, h);
      if k.p.resumed {
        Took(k, h, r, Rest(k, ReadServerFinished, Ok)[0]);
      } else {
        Took(k, h, r, Rest(k, ReadServerFinished, Ok)[0]);
      }
    }
  }

  lemma GoFinishClientHandshake(k: Conf, h: Hs, c: Choice)
    requires !k.server && Follows(k, h, Ok) && Fed(k, h) && h.state == FinishClientHandshake && !c.Fail?
    requires Lands(k, DoFinishClientHandshake(k, h, c))
    ensures Goes(k, h, DoFinishClientHandshake(k, h, c))
  {
    hide CertKnown, Lands, At, Tail, Follows, HsOk, Coherent, Marks, Messages, Goes, MessagesIn, Sends, ReadOne,
      ReadFinished, Hash, NextMessage, Note, KindOf;
    var r := DoFinishClientHandshake(k, h, c);
    PlaceFinishClientHandshake(k);
    PlaceDone(k);
    Keeps(k, h);
    Stays(k, h, r);
  }

  lemma GoStartAccept(k: Conf, h: Hs, c: Choice)
    requires k.server && Follows(k, h, Ok) && Fed(k, h) && h.state == StartAccept && !c.Fail?
    requires Lands(k, DoStartAccept(k, h, c))
    ensures Goes(k, h, DoStartAccept(k, h, c))
  {
    hide CertKnown, Lands, At, Tail, Follows, HsOk, Coherent, Marks, Messages, Goes, MessagesIn, Sends, ReadOne,
      ReadFinished, Hash, NextMessage, Note, KindOf;
    var r := DoStartAccept(k, h, c);
    PlaceStartAccept(k);
    PlaceReadClientHello(k);
    Keeps(k, h);
    Stays(k, h, r);
  }

  lemma GoReadClientHello(k: Conf, h: Hs, c: Choice)
    requires k.server && Follows(k, h, Ok) && Fed(k, h) && h.state == ReadClientHello && !c.Fail?
    requires Lands(k, DoReadClientHello(k, h, c))
    ensures Goes(k, h, DoReadClientHello(k, h, c))
  {
    hide CertKnown, Lands, At, Tail, Follows, HsOk, Coherent, Marks, Messages, Goes, MessagesIn, Sends, ReadOne,
      ReadFinished, Hash, NextMessage, Note, KindOf;
    var r := DoReadClientHello(k, h, c);
    PlaceReadClientHello(k);
    PlaceSelectCertificate(k);
    AtWhole(k.p);
    Keeps(k, h);
    if h.buffer == [] {
      Blocked(k, h, r, Rest(k, ReadClientHello, Ok)[0]);
    } else {
      Stays(k, h, r);
    }
  }

  lemma GoSelectCertificate(k: Conf, h: Hs, c: Choice)
    requires k.server && Follows(k, h, Ok) && Fed(k, h) && h.state == SelectCertificate && !c.Fail?
    requires Lands(k, DoSelectCertificate(k, h, c))
    ensures Goes(k, h, DoSelectCertificate(k, h, c))
  {
    hide CertKnown, Lands, At, Tail, Follows, HsOk, Coherent, Marks, Messages, Goes, MessagesIn, Sends, ReadOne,
      ReadFinished, Hash, NextMessage, Note, KindOf;
    var r := DoSelectCertificate(k, h, c);
    PlaceSelectCertificate(k);
    PlaceSelectParameters(k);
    AtWhole(k.p);
    Keeps(k, h);
    if h.buffer == [] {
      Blocked(k, h, r, Rest(k, SelectCertificate, Ok)[0]);
    } else {
      Stays(k, h, r);
    }
  }

  lemma GoSelectParameters(k: Conf, h: Hs, c: Choice)
    requires k.server && Follows(k, h, Ok) && Fed(k, h) && h.state == SelectParameters && !c.Fail?
    requires Lands(k, DoSelectParameters(k, h, c))
    ensures Goes(k, h, DoSelectParameters(k, h, c))
  {
    hide AwaitsMessage, Lands, At, Tail, Follows, HsOk, Coherent, Marks, Messages, Goes, MessagesIn, Sends, ReadOne,
      ReadFinished, Hash, NextMessage, Note;
    var r := DoSelectParameters(k, h, c);
    PlaceSelectParameters(k);
    PlaceSendServerHello(k);
    AtWhole(k.p);
    Keeps(k, h);
    if h.buffer == [] {
      Blocked(k, h, r, Rest(k, SelectParameters, Ok)[0]);
    } else if c.Retry? {
      Stays(k, h, r);
    } else {
      NextTakes(h.(certRequest := Asks(k.p)), SendServerHello);
      TookKnowing(k, h, r, Rest(k, SelectParameters, Ok)[0]);
    }
  }

  lemma GoReadClientCertificate(k: Conf, h: Hs, c: Choice)
    requires k.server && Follows(k, h, Ok) && Fed(k, h) && h.state == ReadClientCertificate && !c.Fail?
    requires Agreed(k.p) || DoReadClientCertificate(k, h, c).wait != Error
    requires Lands(k, DoReadClientCertificate(k, h, c))
    ensures Goes(k, h, DoReadClientCertificate(k, h, c))
  {
    hide KeysFit, AwaitsMessage, Lands, At, Tail, Follows, HsOk, Coherent, Marks, Messages, Goes, MessagesIn, Sends,
      Note;
    var r := DoReadClientCertificate(k, h, c);
    PlaceReadClientCertificate(k);
    PlaceVerifyClientCertificate(k);
    AtClientCertificate(k.p);
    Keeps(k, h);
    if !h.certRequest { StaysKnowing(k, h, r);
    } else if h.buffer == [] { Blocked(k, h, r, Rest(k, ReadClientCertificate, Ok)[0]);
    } else { TookKnowing(k, h, r, Rest(k, ReadClientCertificate, Ok)[0]);
    }
  }

  lemma GoVerifyClientCertificate(k: Conf, h: Hs, c: Choice)
    requires k.server && Follows(k, h, Ok) && Fed(k, h) && h.state == VerifyClientCertificate && !c.Fail?
    requires Lands(k, DoVerifyClientCertificate(k, h, c))
    ensures Goes(k, h, DoVerifyClientCertificate(k, h, c))
  {
    hide CertKnown, Lands, At, Tail, Follows, HsOk, Coherent, Marks, Messages, Goes, MessagesIn, Sends, ReadOne,
      ReadFinished, Hash, NextMessage, Note;
    hide KindOf, Fed, IsMessage, SameKeys, Asks, Rest;
    PlaceVerifyClientCertificate(k);
    PlaceReadClientKeyExchange(k);
    Keeps(k, h);
    if h.peerCert && c.Retry? {
      SameRest(k, h.state, h.state, Async);
      Stays(k, h, Stepped(h, Async));
    } else {
      SameRest(k, h.state, ReadClientKeyExchange, Ok);
      Stays(k, h, GoTo(h, ReadClientKeyExchange));
    }
  }

  lemma GoReadClientKeyExchange(k: Conf, h: Hs, c: Choice)
    requires k.server && Follows(k, h, Ok) && Fed(k, h) && h.state == ReadClientKeyExchange && !c.Fail?
    requires Lands(k, DoReadClientKeyExchange(k, h, c))
    ensures Goes(k, h, DoReadClientKeyExchange(k, h, c))
  {
    hide CertKnown, Lands, At, Tail, Follows, HsOk, Coherent, Marks, Messages, Goes, MessagesIn, Sends, ReadOne,
      ReadFinished, Hash, NextMessage, Note, KindOf, Fed, IsMessage;
    var r := DoReadClientKeyExchange(k, h, c);
    PlaceReadClientKeyExchange(k);
    PlaceReadClientCertificateVerify(k);
    AtClientKeys(k.p);
    Keeps(k, h);
    if h.buffer != [] { NextTakes(h, ReadClientCertificateVerify); }
    if h.buffer == [] {
      Blocked(k, h, r, Rest(k, ReadClientKeyExchange, Ok)[0]);
    } else {
      FedKind(k, h);
      if c.Retry? {
        Stays(k, h, r);
      } else {
        Took(k, h, r, Rest(k, ReadClientKeyExchange, Ok)[0]);
      }
    }
  }

  lemma GoReadClientCertificateVerify(k: Conf, h: Hs, c: Choice)
    requires k.server && Follows(k, h, Ok) && Fed(k, h) && h.state == ReadClientCertificateVerify && !c.Fail?
    requires Lands(k, DoReadClientCertificateVerify(k, h, c))
    ensures Goes(k, h, DoReadClientCertificateVerify(k, h, c))
  {
    hide AwaitsMessage, Lands, At, Tail, Follows, HsOk, Coherent, Marks, Messages, Goes, MessagesIn, Sends, Hash,
      NextMessage, Note, KindOf;
    var r := DoReadClientCertificateVerify(k, h, c);
    PlaceReadClientCertificateVerify(k);
    PlaceReadClientCcs(k);
    AtVerify(k.p);
    Keeps(k, h);
    if h.buffer != [] { NextTakes(h, ReadClientCcs); }
    if !h.peerCert {
      Stays(k, h, r);
    } else if h.buffer == [] {
      Blocked(k, h, r, Rest(k, ReadClientCertificateVerify, Ok)[0]);
    } else {
      Took(k, h, r, Rest(k, ReadClientCertificateVerify, Ok)[0]);
    }
  }

  lemma GoReadClientCcs(k: Conf, h: Hs, c: Choice)
    requires k.server && Follows(k, h, Ok) && Fed(k, h) && h.state == ReadClientCcs && !c.Fail?
    requires Lands(k, DoReadClientCcs(k, h, c))
    ensures Goes(k, h, DoReadClientCcs(k, h, c))
  {
    hide CertKnown, Lands, At, Tail, Follows, HsOk, Coherent, Marks, Messages, Goes, MessagesIn, Sends, ReadOne,
      ReadFinished, Hash, NextMessage, Note, KindOf;
    var r := DoReadClientCcs(k, h, c);
    PlaceReadClientCcs(k);
    PlaceProcessClientCcs(k);
    AtClientCcs(k.p);
    Keeps(k, h);
    Stays(k, h, r);
  }

  /** What comes next is under the new keys. */
  lemma NothingReadClient(k: Conf, h: Hs)
    requires k.server && Follows(k, h, Ok) && Fed(k, h) && h.state == ProcessClientCcs
    ensures h.buffer == []
  {
    hide At, Follows, IsMessage, Tail;
    PlaceProcessClientCcs(k);
    AtNextProto(k.p);
    AtChannelId(k.p);
    AtClientFinished(k.p);
    Keeps(k, h);
  }

  lemma GoProcessClientCcs(k: Conf, h: Hs, c: Choice)
    requires k.server && Follows(k, h, Ok) && Fed(k, h) && h.state == ProcessClientCcs && !c.Fail?
    requires Lands(k, DoProcessClientCcs(k, h, c))
    ensures Goes(k, h, DoProcessClientCcs(k, h, c))
  {
    hide At, Follows, Lands, Goes, ChangeReadKeys, Rest, IsMessage;
    PlaceProcessClientCcs(k);
    PlaceReadNextProto(k);
    NothingReadClient(k, h);
    ReadKeysChange(k, h, c, ReadNextProto);
  }

  lemma GoReadNextProto(k: Conf, h: Hs, c: Choice)
    requires k.server && Follows(k, h, Ok) && Fed(k, h) && h.state == ReadNextProto && !c.Fail?
    requires Lands(k, DoReadNextProto(k, h, c))
    ensures Goes(k, h, DoReadNextProto(k, h, c))
  {
    hide CertKnown, Lands, At, Tail, Follows, HsOk, Coherent, Marks, Messages, Goes, MessagesIn, Sends, ReadOne,
      ReadFinished, Hash, NextMessage, Note, KindOf;
    var r := DoReadNextProto(k, h, c);
    PlaceReadNextProto(k);
    PlaceReadChannelId(k);
    AtNextProto(k.p);
    Keeps(k, h);
    OneRead(true, h, NextProto, c, ReadChannelId);
    if !k.p.nextProto {
      Stays(k, h, r);
    } else if h.buffer == [] {
      Blocked(k, h, r, Rest(k, ReadNextProto, Ok)[0]);
    } else {
      Took(k, h, r, Rest(k, ReadNextProto, Ok)[0]);
    }
  }

  lemma GoReadChannelId(k: Conf, h: Hs, c: Choice)
    requires k.server && Follows(k, h, Ok) && Fed(k, h) && h.state == ReadChannelId && !c.Fail?
    requires Lands(k, DoReadChannelId(k, h, c))
    ensures Goes(k, h, DoReadChannelId(k, h, c))
  {
    hide CertKnown, Lands, At, Tail, Follows, HsOk, Coherent, Marks, Messages, Goes, MessagesIn, Sends, ReadOne,
      ReadFinished, Hash, NextMessage, Note, KindOf;
    var r := DoReadChannelId(k, h, c);
    PlaceReadChannelId(k);
    PlaceReadClientFinished(k);
    AtChannelId(k.p);
    Keeps(k, h);
    if h.buffer != [] { NextTakes(h, ReadClientFinished); }
    if !k.p.channelId {
      Stays(k, h, r);
    } else if h.buffer == [] {
      Blocked(k, h, r, Rest(k, ReadChannelId, Ok)[0]);
    } else {
      Took(k, h, r, Rest(k, ReadChannelId, Ok)[0]);
    }
  }

  lemma GoReadClientFinished(k: Conf, h: Hs, c: Choice)
    requires k.server && Follows(k, h, Ok) && Fed(k, h) && h.state == ReadClientFinished && !c.Fail?
    requires Lands(k, DoReadClientFinished(k, h, c))
    ensures Goes(k, h, DoReadClientFinished(k, h, c))
  {
    hide IsFinished, At, Tail, Follows, HsOk, Coherent, Marks, Messages, Goes, MessagesIn, Sends, ReadOne,
      ReadFinished, Hash, NextMessage, Note;
    var r := DoReadClientFinished(k, h, c);
    PlaceReadClientFinished(k);
    PlaceSendServerFinished(k);
    PlaceFinishServerHandshake(k);
    AtClientFinished(k.p);
    Keeps(k, h);
    FinishedRead(true, h, if k.p.resumed then FinishServerHandshake else SendServerFinished);
    if h.buffer == [] {
      Blocked(k, h, r, Rest(k, ReadClientFinished, Ok)[0]);
    } else if k.p.resumed {
      assert r.hs.state == FinishServerHandshake;
      Took(k, h, r, Rest(k, ReadClientFinished, Ok)[0]);
    } else {
      assert r.hs.state == SendServerFinished;
      Took(k, h, r, Rest(k, ReadClientFinished, Ok)[0]);
    }
  }

  lemma GoFinishServerHandshake(k: Conf, h: Hs, c: Choice)
    requires k.server && Follows(k, h, Ok) && Fed(k, h) && h.state == FinishServerHandshake && !c.Fail?
    requires Lands(k, DoFinishServerHandshake(k, h, c))
    ensures Goes(k, h, DoFinishServerHandshake(k, h, c))
  {
    hide CertKnown, Lands, At, Tail, Follows, HsOk, Coherent, Marks, Messages, Goes, MessagesIn, Sends, ReadOne,
      ReadFinished, Hash, NextMessage, Note, KindOf;
    var r := DoFinishServerHandshake(k, h, c);
    PlaceFinishServerHandshake(k);
    PlaceDone(k);
    Keeps(k, h);
    Stays(k, h, r);
  }

  lemma AddIfSends(k: Conf, h: Hs, r: Hs, cond: bool, kind: Kind, body: nat, e: Entry)
    requires r == AddIf(k.server, h, cond, kind, body)
    requires kind != FinishedKind && e.byServer == k.server && e.what == Msg(kind) && (cond ==> e.keys == h.writeKeys)
    requires kind == Certificate && !k.server ==> (body == 0 <==> !k.p.hasCert)
    ensures Sends(k, h, r, Opt(cond, e))
  {
    hide Sends, Messages, Coherent, Marks;
    if cond { AddSends(k, h, Message(kind, body), e); } else { SendsNothing(k, h); }
  }

  lemma FinishedSends(k: Conf, h: Hs)
    requires h.writeKeys == 1
    ensures Sends(k, h, SendFinished(k.server, h), [Entry(k.server, Msg(FinishedKind), 1)])
  {
    hide Sends, Messages, Coherent, Marks;
    AddSends(k, h, Finished(k.server, h.transcript), Entry(k.server, Msg(FinishedKind), 1));
  }

  /** What the client adds in its last flight. */
  function SendClientLast(k: Conf, h: Hs, body: nat): Hs
  {
    SendFinished(false, AddIf(false, AddIf(false, ChangeWriteKeys(false, h), k.p.nextProto, NextProto, body), k.p.channelId, ChannelId, body))
  }

  lemma ClientLastSends(k: Conf, h: Hs, body: nat)
    requires !k.server && h.writeKeys == 0
    ensures Sends(k, h, SendClientLast(k, h, body), ClientLast(k.p))
  {
    hide Sends, Messages, Coherent, Marks, Add, AddIf, ChangeWriteKeys, SendFinished;
    var x1 := ChangeWriteKeys(false, h);
    var x2 := AddIf(false, x1, k.p.nextProto, NextProto, body);
    var x3 := AddIf(false, x2, k.p.channelId, ChannelId, body);
    CcsSends(k, h);
    AddIfSends(k, x1, x2, k.p.nextProto, NextProto, body, C1(NextProto));
    AddIfSends(k, x2, x3, k.p.channelId, ChannelId, body, C1(ChannelId));
    FinishedSends(k, x3);
    var e1, e2, e3 := [CcsOf(false)], Opt(k.p.nextProto, C1(NextProto)), Opt(k.p.channelId, C1(ChannelId));
    SendsJoin(k, h, x1, x2, e1, e2);
    SendsJoin(k, h, x2, x3, e1 + e2, e3);
    SendsJoin(k, h, x3, SendFinished(false, x3), e1 + e2 + e3, [C1(FinishedKind)]);
  }

  /** And the server. */
  function SendServerLast(k: Conf, h: Hs, body: nat): Hs
  {
    SendFinished(true, ChangeWriteKeys(true, AddIf(true, h, k.p.ticket, NewSessionTicket, body)))
  }

  lemma ServerLastSends(k: Conf, h: Hs, body: nat)
    requires k.server && h.writeKeys == 0
    ensures Sends(k, h, SendServerLast(k, h, body), ServerLast(k.p))
  {
    hide Sends, Messages, Coherent, Marks, Add, AddIf, ChangeWriteKeys, SendFinished;
    var fin := Entry(true, Msg(FinishedKind), 1);
    var e1, e2 := Opt(k.p.ticket, S(NewSessionTicket)), [CcsOf(true)];
    var x1 := AddIf(true, h, k.p.ticket, NewSessionTicket, body);
    var x2 := ChangeWriteKeys(true, x1);
    AddIfSends(k, h, x1, k.p.ticket, NewSessionTicket, body, S(NewSessionTicket));
    CcsSends(k, x1);
    FinishedSends(k, x2);
    SendsJoin(k, h, x1, x2, e1, e2);
    SendsJoin(k, h, x2, SendFinished(true, x2), e1 + e2, [fin]);
    assert e1 + e2 + [fin] == ServerLast(k.p);
  }

  lemma RequestIsKnown(k: Conf, h: Hs)
    requires CertKnown(k, h) && At(k, h.state).stage == RequestKnown
    ensures h.certRequest == Asks(k.p)
  {
    hide At;
  }

  lemma GoStartConnect(k: Conf, h: Hs, c: Choice)
    requires !k.server && Follows(k, h, Ok) && Fed(k, h) && h.state == StartConnect && !c.Fail?
    requires Lands(k, DoStartConnect(k, h, c))
    ensures Goes(k, h, DoStartConnect(k, h, c))
  {
    hide CertKnown, Lands, At, Tail, Follows, HsOk, Coherent, Marks, Messages, Goes, MessagesIn, Sends, KindOf, Add,
      AddIf, ChangeWriteKeys, SendFinished, ServerLast, ClientLast;
    var r := DoStartConnect(k, h, c);
    PlaceStartConnect(k);
    PlaceEnterEarlyData(k);
    Keeps(k, h);
    var body := BodyOf(c);
    AtWhole(k.p);
    var x := AddIf(false, h, true, ClientHello, body);
    AddIfSends(k, h, x, true, ClientHello, body, C(ClientHello));
    Sent(k, h, x, r, [C(ClientHello)]);
  }

  lemma ClientCertificateNext(k: Conf)
    ensures var rest := Rest(k, SendClientKeyExchange, Ok);
      Rest(k, SendClientCertificate, Ok) == if Asks(k.p) then [C(Certificate)] + rest else rest
  {
    hide At, Tail;
    PlaceSendClientCertificate(k);
    PlaceSendClientKeyExchange(k);
    AtClientCertificate(k.p);
  }

  lemma GoSendClientCertificate(k: Conf, h: Hs, c: Choice)
    requires !k.server && Follows(k, h, Ok) && Fed(k, h) && h.state == SendClientCertificate && !c.Fail?
    requires Lands(k, DoSendClientCertificate(k, h, c))
    ensures Goes(k, h, DoSendClientCertificate(k, h, c))
  {
    hide CertificateBody, CertKnown, AwaitsMessage, Lands, At, Tail, Follows, HsOk, Coherent, Marks, Messages, Goes,
      MessagesIn, Sends, KindOf, Add, AddIf, Fed, IsMessage, Asks, Rest;
    PlaceSendClientCertificate(k);
    PlaceSendClientKeyExchange(k);
    Keeps(k, h);
    RequestIsKnown(k, h);
    ClientCertificateNext(k);
    if !Asks(k.p) {
      Stays(k, h, GoTo(h, SendClientKeyExchange));
    } else if c.Retry? {
      SameRest(k, h.state, h.state, Async);
      Stays(k, h, Stepped(h, Async));
    } else {
      var body := CertificateBody(k, c);
      var x := AddIf(false, h, true, Certificate, body);
      AddIfSends(k, h, x, true, Certificate, body, C(Certificate));
      Sent(k, h, x, GoTo(x, SendClientKeyExchange), [C(Certificate)]);
    }
  }

  lemma GoSendClientKeyExchange(k: Conf, h: Hs, c: Choice)
    requires !k.server && Follows(k, h, Ok) && Fed(k, h) && h.state == SendClientKeyExchange && !c.Fail?
    requires Lands(k, DoSendClientKeyExchange(k, h, c))
    ensures Goes(k, h, DoSendClientKeyExchange(k, h, c))
  {
    hide CertKnown, Lands, At, Tail, Follows, HsOk, Coherent, Marks, Messages, Goes, MessagesIn, Sends, KindOf, Add,
      AddIf, ChangeWriteKeys, SendFinished, ServerLast, ClientLast;
    var r := DoSendClientKeyExchange(k, h, c);
    PlaceSendClientKeyExchange(k);
    PlaceSendClientCertificateVerify(k);
    Keeps(k, h);
    var body := BodyOf(c);
    AtClientKeys(k.p);
    var x := AddIf(false, h, true, ClientKeyExchange, body);
    AddIfSends(k, h, x, true, ClientKeyExchange, body, C(ClientKeyExchange));
    Sent(k, h, x, r, [C(ClientKeyExchange)]);
  }

  lemma GoSendClientCertificateVerify(k: Conf, h: Hs, c: Choice)
    requires !k.server && Follows(k, h, Ok) && Fed(k, h) && h.state == SendClientCertificateVerify && !c.Fail?
    requires Lands(k, DoSendClientCertificateVerify(k, h, c))
    ensures Goes(k, h, DoSendClientCertificateVerify(k, h, c))
  {
    hide CertKnown, AwaitsMessage, Lands, At, Tail, Follows, HsOk, Coherent, Marks, Messages, Goes, MessagesIn,
      Sends, KindOf, Add, AddIf, ChangeWriteKeys, SendFinished, ServerLast, ClientLast;
    var r := DoSendClientCertificateVerify(k, h, c);
    PlaceSendClientCertificateVerify(k);
    PlaceSendClientFinished(k);
    Keeps(k, h);
    RequestIsKnown(k, h);
    var body := BodyOf(c);
    AtVerify(k.p);
    if !Asks(k.p) || !k.p.hasCert || c.Retry? {
      Stays(k, h, r);
    } else {
      var x := AddIf(false, h, true, CertificateVerify, body);
      AddIfSends(k, h, x, true, CertificateVerify, body, C(CertificateVerify));
      Sent(k, h, x, r, [C(CertificateVerify)]);
    }
  }

  lemma GoSendClientFinished(k: Conf, h: Hs, c: Choice)
    requires !k.server && Follows(k, h, Ok) && Fed(k, h) && h.state == SendClientFinished && !c.Fail?
    requires Lands(k, DoSendClientFinished(k, h, c))
    ensures Goes(k, h, DoSendClientFinished(k, h, c))
  {
    hide CertKnown, Lands, At, Tail, Follows, HsOk, Coherent, Marks, Messages, Goes, MessagesIn, Sends, KindOf, Add,
      AddIf, ChangeWriteKeys, SendFinished, ServerLast, ClientLast;
    var r := DoSendClientFinished(k, h, c);
    PlaceSendClientFinished(k);
    PlaceFinishFlight(k);
    Keeps(k, h);
    var body := BodyOf(c);
    AtClientLast(k.p);
    if k.p.channelId && c.Retry? {
      Stays(k, h, r);
    } else {
      var es := ClientLast(k.p);
      var x := SendClientLast(k, h, body);
      ClientLastSends(k, h, body);
      Sent(k, h, x, r, es);
    }
  }

  lemma GoSendServerHello(k: Conf, h: Hs, c: Choice)
    requires k.server && Follows(k, h, Ok) && Fed(k, h) && h.state == SendServerHello && !c.Fail?
    requires Lands(k, DoSendServerHello(k, h, c))
    ensures Goes(k, h, DoSendServerHello(k, h, c))
  {
    hide CertKnown, Lands, At, Tail, Follows, HsOk, Coherent, Marks, Messages, Goes, MessagesIn, Sends, KindOf, Add,
      AddIf, ChangeWriteKeys, SendFinished, ServerLast, ClientLast;
    var r := DoSendServerHello(k, h, c);
    PlaceSendServerHello(k);
    PlaceSendServerCertificate(k);
    PlaceSendServerFinished(k);
    Keeps(k, h);
    var body := BodyOf(c);
    AtServerHello(k.p);
    var x := AddIf(true, h, true, ServerHello, body);
    AddIfSends(k, h, x, true, ServerHello, body, S(ServerHello));
    Sent(k, h, x, r, [S(ServerHello)]);
  }

  lemma GoSendServerCertificate(k: Conf, h: Hs, c: Choice)
    requires k.server && Follows(k, h, Ok) && Fed(k, h) && h.state == SendServerCertificate && !c.Fail?
    requires Lands(k, DoSendServerCertificate(k, h, c))
    ensures Goes(k, h, DoSendServerCertificate(k, h, c))
  {
    hide CertKnown, Lands, At, Tail, Follows, HsOk, Coherent, Marks, Messages, Goes, MessagesIn, Sends, KindOf, Add,
      AddIf, ChangeWriteKeys, SendFinished, ServerLast, ClientLast;
    var r := DoSendServerCertificate(k, h, c);
    PlaceSendServerCertificate(k);
    PlaceSendServerKeyExchange(k);
    Keeps(k, h);
    var body := BodyOf(c);
    var e1, e2 := Opt(k.p.certAuth, S(Certificate)), Opt(k.p.certAuth && k.p.status, S(CertificateStatus));
    AtServerCertificates(k.p);
    var x1 := AddIf(true, h, k.p.certAuth, Certificate, body);
    var x := AddIf(true, x1, k.p.certAuth && k.p.status, CertificateStatus, body);
    AddIfSends(k, h, x1, k.p.certAuth, Certificate, body, S(Certificate));
    AddIfSends(k, x1, x, k.p.certAuth && k.p.status, CertificateStatus, body, S(CertificateStatus));
    SendsJoin(k, h, x1, x, e1, e2);
    Sent(k, h, x, r, e1 + e2);
  }

  lemma ServerKeysNext(k: Conf)
    ensures var rest := Rest(k, SendServerHelloDone, Ok);
      Rest(k, SendServerKeyExchange, Ok) == if k.p.keSent then [S(ServerKeyExchange)] + rest else rest
  {
    hide At, Tail;
    PlaceSendServerKeyExchange(k);
    PlaceSendServerHelloDone(k);
    AtServerKeys(k.p);
  }

  lemma GoSendServerKeyExchange(k: Conf, h: Hs, c: Choice)
    requires k.server && Follows(k, h, Ok) && Fed(k, h) && h.state == SendServerKeyExchange && !c.Fail?
    requires Lands(k, DoSendServerKeyExchange(k, h, c))
    ensures Goes(k, h, DoSendServerKeyExchange(k, h, c))
  {
    hide CertKnown, AwaitsMessage, Lands, At, Tail, Follows, HsOk, Coherent, Marks, Messages, Goes, MessagesIn,
      Sends, KindOf, Add, AddIf, Fed, IsMessage, Rest;
    PlaceSendServerKeyExchange(k);
    PlaceSendServerHelloDone(k);
    Keeps(k, h);
    ServerKeysNext(k);
    if !k.p.keSent {
      Stays(k, h, GoTo(h, SendServerHelloDone));
    } else if k.p.certAuth && c.Retry? {
      SameRest(k, h.state, h.state, Async);
      Stays(k, h, Stepped(h, Async));
    } else {
      var x := AddIf(true, h, true, ServerKeyExchange, BodyOf(c));
      AddIfSends(k, h, x, true, ServerKeyExchange, BodyOf(c), S(ServerKeyExchange));
      Sent(k, h, x, GoTo(x, SendServerHelloDone), [S(ServerKeyExchange)]);
    }
  }

  lemma GoSendServerHelloDone(k: Conf, h: Hs, c: Choice)
    requires k.server && Follows(k, h, Ok) && Fed(k, h) && h.state == SendServerHelloDone && !c.Fail?
    requires Lands(k, DoSendServerHelloDone(k, h, c))
    ensures Goes(k, h, DoSendServerHelloDone(k, h, c))
  {
    hide AwaitsMessage, Lands, At, Tail, Follows, HsOk, Coherent, Marks, Messages, Goes, MessagesIn, Sends, KindOf,
      Add, AddIf, ChangeWriteKeys, SendFinished, ServerLast, ClientLast;
    var r := DoSendServerHelloDone(k, h, c);
    PlaceSendServerHelloDone(k);
    PlaceReadClientCertificate(k);
    Keeps(k, h);
    var body := BodyOf(c);
    var e1, e2 := Opt(Asks(k.p), S(CertificateRequest)), [S(ServerHelloDone)];
    AtServerDone(k.p);
    var x1 := AddIf(true, h, Asks(k.p), CertificateRequest, body);
    var x := AddIf(true, x1, true, ServerHelloDone, 0);
    AddIfSends(k, h, x1, Asks(k.p), CertificateRequest, body, S(CertificateRequest));
    AddIfSends(k, x1, x, true, ServerHelloDone, 0, S(ServerHelloDone));
    SendsJoin(k, h, x1, x, e1, e2);
    Sent(k, h, x, r, e1 + e2);
  }

  lemma GoSendServerFinished(k: Conf, h: Hs, c: Choice)
    requires k.server && Follows(k, h, Ok) && Fed(k, h) && h.state == SendServerFinished && !c.Fail?
    requires Lands(k, DoSendServerFinished(k, h, c))
    ensures Goes(k, h, DoSendServerFinished(k, h, c))
  {
    hide CertKnown, Lands, At, Tail, Follows, HsOk, Coherent, Marks, Messages, Goes, MessagesIn, Sends, KindOf, Add,
      AddIf, ChangeWriteKeys, SendFinished, ServerLast, ClientLast;
    var r := DoSendServerFinished(k, h, c);
    PlaceSendServerFinished(k);
    PlaceReadClientCcs(k);
    PlaceFinishServerHandshake(k);
    Keeps(k, h);
    var body := BodyOf(c);
    AtServerLast(k.p);
    var es := ServerLast(k.p);
    var x := SendServerLast(k, h, body);
    ServerLastSends(k, h, body);
    Sent(k, h, x, r, es);
  }

  /** Each state of either machine follows the run. */
  lemma StepGoes(k: Conf, h: Hs, c: Choice)
    requires (Agreed(k.p) || Step(k, h, c).wait != Error) && Follows(k, h, Ok) && Fed(k, h) && h.state != Done && !c.Fail?
    ensures Goes(k, h, Step(k, h, c))
  {
    hide Follows, Fed, Goes, Agreed, At, Step, HsOk, Coherent, Marks, Messages, FinishedOk, Made;
    if k.server { ServerGoes(k, h, c); } else { ClientGoes(k, h, c); }
  }

  lemma OfServer(k: Conf, st: State)
    requires k.server && At(k, st).own
    ensures st.StartAccept? || st.ReadClientHello? || st.SelectCertificate? || st.SelectParameters? ||
      st.SendServerHello? || st.SendServerCertificate? || st.SendServerKeyExchange? ||
      st.SendServerHelloDone? || st.ReadClientCertificate? || st.VerifyClientCertificate? ||
      st.ReadClientKeyExchange? || st.ReadClientCertificateVerify? || st.ReadClientCcs? ||
      st.ProcessClientCcs? || st.ReadNextProto? || st.ReadChannelId? || st.ReadClientFinished? ||
      st.SendServerFinished? || st.FinishServerHandshake? || st.Done?
  {}

  lemma OfClient(k: Conf, st: State)
    requires !k.server && At(k, st).own
    ensures st.StartConnect? || st.EnterEarlyData? || st.ReadServerHello? || st.ReadServerCertificate? ||
      st.ReadCertificateStatus? || st.VerifyServerCertificate? || st.ReadServerKeyExchange? ||
      st.ReadCertificateRequest? || st.ReadServerHelloDone? || st.SendClientCertificate? ||
      st.SendClientKeyExchange? || st.SendClientCertificateVerify? || st.SendClientFinished? ||
      st.FinishFlight? || st.ReadSessionTicket? || st.ProcessServerCcs? || st.ReadServerFinished? ||
      st.FinishClientHandshake? || st.Done?
  {}

  lemma ServerBegins(k: Conf, h: Hs, c: Choice)
    requires (Agreed(k.p) || Step(k, h, c).wait != Error) && k.server && Follows(k, h, Ok) && Fed(k, h) && !c.Fail?
    requires h.state.StartAccept? || h.state.ReadClientHello? || h.state.SelectCertificate? ||
      h.state.SelectParameters? || h.state.SendServerHello?
    ensures Goes(k, h, Step(k, h, c))
  {
    hide At, Follows, Lands, Fed, Goes, Failed, Agreed, CertKnown, HsOk, Coherent, Marks, Messages, FinishedOk, Made;
    hide DoStartAccept, DoReadClientHello, DoSelectCertificate, DoSelectParameters, DoSendServerHello,
      DoSendServerCertificate, DoSendServerKeyExchange, DoSendServerHelloDone, DoReadClientCertificate,
      DoVerifyClientCertificate, DoReadClientKeyExchange, DoReadClientCertificateVerify, DoReadClientCcs,
      DoProcessClientCcs, DoReadNextProto, DoReadChannelId, DoReadClientFinished, DoSendServerFinished,
      DoFinishServerHandshake;
    Stepping(k, h, c);
    match h.state
    case StartAccept => GoStartAccept(k, h, c);
    case ReadClientHello => GoReadClientHello(k, h, c);
    case SelectCertificate => GoSelectCertificate(k, h, c);
    case SelectParameters => GoSelectParameters(k, h, c);
    case SendServerHello => GoSendServerHello(k, h, c);
  }

  lemma ServerOffers(k: Conf, h: Hs, c: Choice)
    requires (Agreed(k.p) || Step(k, h, c).wait != Error) && k.server && Follows(k, h, Ok) && Fed(k, h) && !c.Fail?
    requires h.state.SendServerCertificate? || h.state.SendServerKeyExchange? ||
      h.state.SendServerHelloDone?
    ensures Goes(k, h, Step(k, h, c))
  {
    hide At, Follows, Lands, Fed, Goes, Failed, Agreed, CertKnown, HsOk, Coherent, Marks, Messages, FinishedOk, Made;
    hide DoStartAccept, DoReadClientHello, DoSelectCertificate, DoSelectParameters, DoSendServerHello,
      DoSendServerCertificate, DoSendServerKeyExchange, DoSendServerHelloDone, DoReadClientCertificate,
      DoVerifyClientCertificate, DoReadClientKeyExchange, DoReadClientCertificateVerify, DoReadClientCcs,
      DoProcessClientCcs, DoReadNextProto, DoReadChannelId, DoReadClientFinished, DoSendServerFinished,
      DoFinishServerHandshake;
    Stepping(k, h, c);
    match h.state
    case SendServerCertificate => GoSendServerCertificate(k, h, c);
    case SendServerKeyExchange => GoSendServerKeyExchange(k, h, c);
    case SendServerHelloDone => GoSendServerHelloDone(k, h, c);
  }

  lemma ServerAccepts(k: Conf, h: Hs, c: Choice)
    requires (Agreed(k.p) || Step(k, h, c).wait != Error) && k.server && Follows(k, h, Ok) && Fed(k, h) && !c.Fail?
    requires h.state.ReadClientCertificate? || h.state.VerifyClientCertificate? ||
      h.state.ReadClientKeyExchange? || h.state.ReadClientCertificateVerify? || h.state.ReadClientCcs?
    ensures Goes(k, h, Step(k, h, c))
  {
    hide At, Follows, Lands, Fed, Goes, Failed, Agreed, CertKnown, HsOk, Coherent, Marks, Messages, FinishedOk, Made;
    hide DoStartAccept, DoReadClientHello, DoSelectCertificate, DoSelectParameters, DoSendServerHello,
      DoSendServerCertificate, DoSendServerKeyExchange, DoSendServerHelloDone, DoReadClientCertificate,
      DoVerifyClientCertificate, DoReadClientKeyExchange, DoReadClientCertificateVerify, DoReadClientCcs,
      DoProcessClientCcs, DoReadNextProto, DoReadChannelId, DoReadClientFinished, DoSendServerFinished,
      DoFinishServerHandshake;
    Stepping(k, h, c);
    match h.state
    case ReadClientCertificate => GoReadClientCertificate(k, h, c);
    case VerifyClientCertificate => GoVerifyClientCertificate(k, h, c);
    case ReadClientKeyExchange => GoReadClientKeyExchange(k, h, c);
    case ReadClientCertificateVerify => GoReadClientCertificateVerify(k, h, c);
    case ReadClientCcs => GoReadClientCcs(k, h, c);
  }

  lemma ServerConcludes(k: Conf, h: Hs, c: Choice)
    requires (Agreed(k.p) || Step(k, h, c).wait != Error) && k.server && Follows(k, h, Ok) && Fed(k, h) && !c.Fail?
    requires h.state.ProcessClientCcs? || h.state.ReadNextProto? || h.state.ReadChannelId? ||
      h.state.ReadClientFinished? || h.state.SendServerFinished? || h.state.FinishServerHandshake?
    ensures Goes(k, h, Step(k, h, c))
  {
    hide At, Follows, Lands, Fed, Goes, Failed, Agreed, CertKnown, HsOk, Coherent, Marks, Messages, FinishedOk, Made;
    hide DoStartAccept, DoReadClientHello, DoSelectCertificate, DoSelectParameters, DoSendServerHello,
      DoSendServerCertificate, DoSendServerKeyExchange, DoSendServerHelloDone, DoReadClientCertificate,
      DoVerifyClientCertificate, DoReadClientKeyExchange, DoReadClientCertificateVerify, DoReadClientCcs,
      DoProcessClientCcs, DoReadNextProto, DoReadChannelId, DoReadClientFinished, DoSendServerFinished,
      DoFinishServerHandshake;
    Stepping(k, h, c);
    match h.state
    case ProcessClientCcs => GoProcessClientCcs(k, h, c);
    case ReadNextProto => GoReadNextProto(k, h, c);
    case ReadChannelId => GoReadChannelId(k, h, c);
    case ReadClientFinished => GoReadClientFinished(k, h, c);
    case SendServerFinished => GoSendServerFinished(k, h, c);
    case FinishServerHandshake => GoFinishServerHandshake(k, h, c);
  }

  lemma ServerGoes(k: Conf, h: Hs, c: Choice)
    requires (Agreed(k.p) || Step(k, h, c).wait != Error) && k.server && Follows(k, h, Ok) && Fed(k, h) && h.state != Done && !c.Fail?
    ensures Goes(k, h, Step(k, h, c))
  {
    hide At, Follows, Fed, Goes, Agreed, CertKnown, Step, HsOk, Coherent, Marks, Messages, FinishedOk, Made;
    Keeps(k, h);
    OfServer(k, h.state);
    if h.state.StartAccept? || h.state.ReadClientHello? || h.state.SelectCertificate? ||
      h.state.SelectParameters? || h.state.SendServerHello? {
      ServerBegins(k, h, c);
    } else if h.state.SendServerCertificate? || h.state.SendServerKeyExchange? || h.state.SendServerHelloDone? {
      ServerOffers(k, h, c);
    } else if h.state.ReadClientCertificate? || h.state.VerifyClientCertificate? || h.state.ReadClientKeyExchange? ||
      h.state.ReadClientCertificateVerify? || h.state.ReadClientCcs? {
      ServerAccepts(k, h, c);
    } else {
      ServerConcludes(k, h, c);
    }
  }

  lemma ClientGoes(k: Conf, h: Hs, c: Choice)
    requires (Agreed(k.p) || Step(k, h, c).wait != Error) && !k.server && Follows(k, h, Ok) && Fed(k, h) && h.state != Done && !c.Fail?
    ensures Goes(k, h, Step(k, h, c))
  {
    hide At, Follows, Lands, Fed, Goes, Failed, Agreed, CertKnown, HsOk, Coherent, Marks, Messages, FinishedOk, Made;
    hide DoStartConnect, DoEnterEarlyData, DoReadServerHello, DoReadServerCertificate, DoReadCertificateStatus,
      DoVerifyServerCertificate, DoReadServerKeyExchange, DoReadCertificateRequest, DoReadServerHelloDone,
      DoSendClientCertificate, DoSendClientKeyExchange, DoSendClientCertificateVerify, DoSendClientFinished,
      DoFinishFlight, DoReadSessionTicket, DoProcessServerCcs, DoReadServerFinished, DoFinishClientHandshake,
      DoStartAccept, DoReadClientHello, DoSelectCertificate, DoSelectParameters, DoSendServerHello,
      DoSendServerCertificate, DoSendServerKeyExchange, DoSendServerHelloDone, DoReadClientCertificate,
      DoVerifyClientCertificate, DoReadClientKeyExchange, DoReadClientCertificateVerify, DoReadClientCcs,
      DoProcessClientCcs, DoReadNextProto, DoReadChannelId, DoReadClientFinished, DoSendServerFinished,
      DoFinishServerHandshake;
    Keeps(k, h);
    Stepping(k, h, c);
    OfClient(k, h.state);
    match h.state
    case StartConnect => GoStartConnect(k, h, c);
    case EnterEarlyData => GoEnterEarlyData(k, h, c);
    case ReadServerHello => GoReadServerHello(k, h, c);
    case ReadServerCertificate => GoReadServerCertificate(k, h, c);
    case ReadCertificateStatus => GoReadCertificateStatus(k, h, c);
    case VerifyServerCertificate => GoVerifyServerCertificate(k, h, c);
    case ReadServerKeyExchange => GoReadServerKeyExchange(k, h, c);
    case ReadCertificateRequest => GoReadCertificateRequest(k, h, c);
    case ReadServerHelloDone => GoReadServerHelloDone(k, h, c);
    case SendClientCertificate => GoSendClientCertificate(k, h, c);
    case SendClientKeyExchange => GoSendClientKeyExchange(k, h, c);
    case SendClientCertificateVerify => GoSendClientCertificateVerify(k, h, c);
    case SendClientFinished => GoSendClientFinished(k, h, c);
    case FinishFlight => GoFinishFlight(k, h, c);
    case ReadSessionTicket => GoReadSessionTicket(k, h, c);
    case ProcessServerCcs => GoProcessServerCcs(k, h, c);
    case ReadServerFinished => GoReadServerFinished(k, h, c);
    case FinishClientHandshake => GoFinishClientHandshake(k, h, c);
  }

  // ------------------------------------------------------ what has to fit

  /** The client leaves this state, without an error, only if the keys fit; */
  lemma KeysMustFit(k: Conf, h: Hs, c: Choice)
    requires !k.server && Follows(k, h, Ok) && Fed(k, h) && h.state == ReadServerKeyExchange
    requires DoReadServerKeyExchange(k, h, c).wait != Error && DoReadServerKeyExchange(k, h, c).hs.state != h.state
    ensures KeysFit(k.p)
  {
    hide At, Tail, Follows, KindOf, AwaitsMessage, Asks;
    PlaceReadServerKeyExchange(k);
    NextOfServer(k.p);
  }

  /** and the server this one only if the certificate does. */
  lemma CertificateMustFit(k: Conf, h: Hs, c: Choice)
    requires k.server && Follows(k, h, Ok) && Fed(k, h) && h.state == ReadClientCertificate
    requires DoReadClientCertificate(k, h, c).wait != Error && DoReadClientCertificate(k, h, c).hs.state != h.state
    ensures CertificateFits(k.p)
  {
    hide At, Tail, Follows, AwaitsMessage, Asks;
    Keeps(k, h);
    PlaceReadClientCertificate(k);
    AtClientCertificate(k.p);
  }

  /** Behind those states, the parameters are known to fit. */
  predicate Settled(k: Conf, st: State)
  {
    || k.p.resumed
    || (if k.server then At(k, st).rank < 12 ==> CertificateFits(k.p) else At(k, st).rank < 14 ==> KeysFit(k.p))
  }

  /** The states before them. */
  predicate BeforeKeys(st: State)
  {
    || st.StartConnect? || st.EnterEarlyData? || st.ReadServerHello? || st.ReadServerCertificate?
    || st.ReadCertificateStatus? || st.VerifyServerCertificate?
  }

  predicate BeforeCertificate(st: State)
  {
    || st.StartAccept? || st.ReadClientHello? || st.SelectCertificate? || st.SelectParameters?
    || st.SendServerHello? || st.SendServerCertificate? || st.SendServerKeyExchange? || st.SendServerHelloDone?
  }

  lemma ClientPlaces(k: Conf, st: State)
    requires !k.server
    ensures At(k, st).own ==> At(k, st).rank < 14 || BeforeKeys(st) || st == ReadServerKeyExchange
    ensures BeforeKeys(st) || st == ReadServerKeyExchange ==> At(k, st).rank >= 14
  {}

  lemma ServerPlaces(k: Conf, st: State)
    requires k.server && !k.p.resumed
    ensures At(k, st).own ==> At(k, st).rank < 12 || BeforeCertificate(st) || st == ReadClientCertificate
    ensures BeforeCertificate(st) || st == ReadClientCertificate ==> At(k, st).rank >= 12
  {
    hide At, BeforeCertificate;
    if BeforeCertificate(st) || st == ReadClientCertificate {
      ServerPlacesBefore(k, st);
    } else {
      ServerPlacesFrom(k, st);
    }
  }

  lemma ServerPlacesFrom(k: Conf, st: State)
    requires k.server && !k.p.resumed && !BeforeCertificate(st) && st != ReadClientCertificate
    ensures At(k, st).own ==> At(k, st).rank < 12
  {}

  lemma ServerPlacesBefore(k: Conf, st: State)
    requires BeforeCertificate(st) || st == ReadClientCertificate
    ensures At(k, st).rank >= 12
  {}

  lemma ClientStaysBefore(k: Conf, h: Hs, c: Choice)
    requires !k.p.resumed && BeforeKeys(h.state) && ClientStep(k, h, c).wait != Error
    ensures var st := ClientStep(k, h, c).hs.state; BeforeKeys(st) || st == ReadServerKeyExchange
  {
    hide Coherent, Marks, Messages, KindOf, ReadOne, Add, AddIf;
  }

  lemma ServerStaysBefore(k: Conf, h: Hs, c: Choice)
    requires !k.p.resumed && BeforeCertificate(h.state) && ServerStep(k, h, c).wait != Error
    ensures var st := ServerStep(k, h, c).hs.state; BeforeCertificate(st) || st == ReadClientCertificate
  {
    hide Coherent, Marks, Messages, KindOf, ReadOne, Add, AddIf;
  }

  lemma ClientAtKeys(k: Conf, h: Hs, c: Choice)
    requires !k.server && h.state == ReadServerKeyExchange
    ensures Step(k, h, c) == DoReadServerKeyExchange(k, h, c)
  {
    hide DoReadServerKeyExchange;
  }

  lemma ServerAtCertificate(k: Conf, h: Hs, c: Choice)
    requires k.server && h.state == ReadClientCertificate
    ensures Step(k, h, c) == DoReadClientCertificate(k, h, c)
  {
    hide DoReadClientCertificate;
  }

  /** A step that does not fail goes no further than the parameters allow. */
  lemma StepSettles(k: Conf, h: Hs, c: Choice)
    requires Follows(k, h, Ok) && Fed(k, h) && h.state != Done && Step(k, h, c).wait != Error && Settled(k, h.state)
    ensures Settled(k, Step(k, h, c).hs.state)
  {
    hide Follows, Fed, At, HsOk, KeysFit, CertificateFits, ClientStep, ServerStep, BeforeKeys, BeforeCertificate,
      DoReadServerKeyExchange, DoReadClientCertificate;
    Keeps(k, h);
    Stepping(k, h, c);
    var next := Step(k, h, c).hs.state;
    if !k.p.resumed && k.server {
      ServerPlaces(k, h.state);
      ServerPlaces(k, next);
      if BeforeCertificate(h.state) {
        ServerStaysBefore(k, h, c);
      } else if h.state == ReadClientCertificate {
        ServerAtCertificate(k, h, c);
        if next != h.state { CertificateMustFit(k, h, c); }
      }
    } else if !k.p.resumed {
      ClientPlaces(k, h.state);
      ClientPlaces(k, next);
      if BeforeKeys(h.state) {
        ClientStaysBefore(k, h, c);
      } else if h.state == ReadServerKeyExchange {
        ClientAtKeys(k, h, c);
        if next != h.state { KeysMustFit(k, h, c); }
      }
    }
  }
}
