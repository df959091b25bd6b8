/** The states of the two handshake machines, and what each of them means for an endpoint: the
    run of the protocol (RFC 5246, section 7.3) that is still to come, and what has been done. */
module TlsStates {
  import opened TlsHandshake

  /** A record of the run: who sends it, what it holds, and under which keys. */
  datatype What = TheCcs | Msg(kind: Kind)
  datatype Entry = Entry(byServer: bool, what: What, keys: nat)

  function C(kind: Kind): Entry { Entry(false, Msg(kind), 0) }
  function C1(kind: Kind): Entry { Entry(false, Msg(kind), 1) }
  function S(kind: Kind): Entry { Entry(true, Msg(kind), 0) }
  function CcsOf(byServer: bool): Entry { Entry(byServer, TheCcs, 0) }
  function Opt(cond: bool, e: Entry): seq<Entry> { if cond then [e] else [] }

  /** The server asks for a client certificate. */
  predicate Asks(p: Params) { !p.resumed && p.askCert && p.certAuth }

  /** The server sends a ServerKeyExchange just where the client wants and understands one, */
  predicate KeysFit(p: Params) { (p.keRequired ==> p.keSent) && (p.keSent ==> p.keAllowed) }

  /** and the client can give a certificate that the server insists on. */
  predicate CertificateFits(p: Params) { Asks(p) && p.needCert ==> p.hasCert }

  /** The parameters suit both sides; a resumed session needs neither keys nor certificates. */
  predicate Agreed(p: Params) { p.resumed || (KeysFit(p) && CertificateFits(p)) }

  // ------------------------------------------------------ what is still to come

  /** From each point of the run to its end, last to first. */
  function ServerLast(p: Params): seq<Entry> { Opt(p.ticket, S(NewSessionTicket)) + [CcsOf(true), Entry(true, Msg(FinishedKind), 1)] }
  function ClientLast(p: Params): seq<Entry>
  {
    [CcsOf(false)] + Opt(p.nextProto, C1(NextProto)) + Opt(p.channelId, C1(ChannelId)) + [C1(FinishedKind)]
  }
  function FromClientFinished(p: Params): seq<Entry> { [C1(FinishedKind)] + (if p.resumed then [] else ServerLast(p)) }
  function FromChannelId(p: Params): seq<Entry> { Opt(p.channelId, C1(ChannelId)) + FromClientFinished(p) }
  function FromNextProto(p: Params): seq<Entry> { Opt(p.nextProto, C1(NextProto)) + FromChannelId(p) }
  function FromClientCcs(p: Params): seq<Entry> { [CcsOf(false)] + FromNextProto(p) }
  function FromServerFinished(p: Params): seq<Entry> { [Entry(true, Msg(FinishedKind), 1)] + (if p.resumed then FromClientCcs(p) else []) }
  function FromServerCcs(p: Params): seq<Entry> { [CcsOf(true)] + FromServerFinished(p) }
  function FromTicket(p: Params): seq<Entry> { Opt(p.ticket, S(NewSessionTicket)) + FromServerCcs(p) }
  function FromCertificateVerify(p: Params): seq<Entry> { Opt(Asks(p) && p.hasCert, C(CertificateVerify)) + FromClientCcs(p) }
  function FromClientKeys(p: Params): seq<Entry> { [C(ClientKeyExchange)] + FromCertificateVerify(p) }
  function FromClientCertificate(p: Params): seq<Entry> { Opt(Asks(p), C(Certificate)) + FromClientKeys(p) }
  function FromHelloDone(p: Params): seq<Entry> { [S(ServerHelloDone)] + FromClientCertificate(p) }
  function FromCertificateRequest(p: Params): seq<Entry> { Opt(Asks(p), S(CertificateRequest)) + FromHelloDone(p) }
  function FromServerKeys(p: Params): seq<Entry> { Opt(p.keSent, S(ServerKeyExchange)) + FromCertificateRequest(p) }
  function FromStatus(p: Params): seq<Entry> { Opt(p.certAuth && p.status, S(CertificateStatus)) + FromServerKeys(p) }
  function FromCertificate(p: Params): seq<Entry> { Opt(p.certAuth, S(Certificate)) + FromStatus(p) }
  function FromServerHello(p: Params): seq<Entry> { [S(ServerHello)] + (if p.resumed then FromTicket(p) else FromCertificate(p)) }

  /** The whole run. */
  function Script(p: Params): seq<Entry> { [C(ClientHello)] + FromServerHello(p) }

  /** A point of the run, named by what can come next. */
  datatype Point =
    | Whole | ServerHelloOn | CertificateOn | StatusOn | ServerKeysOn | RequestOn | HelloDoneOn
    | ClientCertificateOn | ClientKeysOn | VerifyOn | ClientCcsOn | NextProtoOn | ChannelIdOn
    | ClientFinishedOn | TicketOn | ServerFinishedOn | Nothing

  function Tail(p: Params, at: Point): seq<Entry>
  {
    match at
    case Whole => Script(p)
    case ServerHelloOn => FromServerHello(p)
    case CertificateOn => FromCertificate(p)
    case StatusOn => FromStatus(p)
    case ServerKeysOn => FromServerKeys(p)
    case RequestOn => FromCertificateRequest(p)
    case HelloDoneOn => FromHelloDone(p)
    case ClientCertificateOn => FromClientCertificate(p)
    case ClientKeysOn => FromClientKeys(p)
    case VerifyOn => FromCertificateVerify(p)
    case ClientCcsOn => FromClientCcs(p)
    case NextProtoOn => FromNextProto(p)
    case ChannelIdOn => FromChannelId(p)
    case ClientFinishedOn => FromClientFinished(p)
    case TicketOn => FromTicket(p)
    case ServerFinishedOn => FromServerFinished(p)
    case Nothing => []
  }

  lemma AtWhole(p: Params)
    ensures Tail(p, Whole) == [C(ClientHello)] + Tail(p, ServerHelloOn)
  {
    hide FromServerHello;
  }

  lemma AtServerHello(p: Params)
    ensures Tail(p, ServerHelloOn) == [S(ServerHello)] + Tail(p, if p.resumed then TicketOn else CertificateOn)
  {
    hide FromTicket, FromCertificate;
  }

  lemma AtCertificate(p: Params)
    ensures Tail(p, CertificateOn) == if p.certAuth then [S(Certificate)] + Tail(p, StatusOn) else Tail(p, StatusOn)
  {
    hide FromStatus;
  }

  lemma AtStatus(p: Params)
    ensures Tail(p, StatusOn) ==
      if p.certAuth && p.status then [S(CertificateStatus)] + Tail(p, ServerKeysOn) else Tail(p, ServerKeysOn)
  {
    hide FromServerKeys;
  }

  lemma AtServerKeys(p: Params)
    ensures Tail(p, ServerKeysOn) == if p.keSent then [S(ServerKeyExchange)] + Tail(p, RequestOn) else Tail(p, RequestOn)
  {
    hide FromCertificateRequest;
  }

  lemma AtRequest(p: Params)
    ensures Tail(p, RequestOn) == if Asks(p) then [S(CertificateRequest)] + Tail(p, HelloDoneOn) else Tail(p, HelloDoneOn)
  {
    hide FromHelloDone;
  }

  lemma AtHelloDone(p: Params)
    ensures Tail(p, HelloDoneOn) == [S(ServerHelloDone)] + Tail(p, ClientCertificateOn)
  {
    hide FromClientCertificate;
  }

  lemma AtClientCertificate(p: Params)
    ensures Tail(p, ClientCertificateOn) == if Asks(p) then [C(Certificate)] + Tail(p, ClientKeysOn) else Tail(p, ClientKeysOn)
  {
    hide FromClientKeys;
  }

  lemma AtClientKeys(p: Params)
    ensures Tail(p, ClientKeysOn) == [C(ClientKeyExchange)] + Tail(p, VerifyOn)
  {
    hide FromCertificateVerify;
  }

  lemma AtVerify(p: Params)
    ensures Tail(p, VerifyOn) ==
      if Asks(p) && p.hasCert then [C(CertificateVerify)] + Tail(p, ClientCcsOn) else Tail(p, ClientCcsOn)
  {
    hide FromClientCcs;
  }

  lemma AtClientCcs(p: Params)
    ensures Tail(p, ClientCcsOn) == [CcsOf(false)] + Tail(p, NextProtoOn)
  {
    hide FromNextProto;
  }

  lemma AtNextProto(p: Params)
    ensures Tail(p, NextProtoOn) == if p.nextProto then [C1(NextProto)] + Tail(p, ChannelIdOn) else Tail(p, ChannelIdOn)
  {
    hide FromChannelId;
  }

  lemma AtChannelId(p: Params)
    ensures Tail(p, ChannelIdOn) == if p.channelId then [C1(ChannelId)] + Tail(p, ClientFinishedOn) else Tail(p, ClientFinishedOn)
  {
    hide FromClientFinished;
  }

  lemma AtClientFinished(p: Params)
    ensures Tail(p, ClientFinishedOn) == [C1(FinishedKind)] + Tail(p, if p.resumed then Nothing else TicketOn)
  {}

  lemma AtTicket(p: Params)
    ensures Tail(p, TicketOn) ==
      if p.ticket then [S(NewSessionTicket)] + ([CcsOf(true)] + Tail(p, ServerFinishedOn)) else [CcsOf(true)] + Tail(p, ServerFinishedOn)
  {
    hide FromServerFinished;
  }

  lemma AtServerFinished(p: Params)
    ensures Tail(p, ServerFinishedOn) == [Entry(true, Msg(FinishedKind), 1)] + Tail(p, if p.resumed then ClientCcsOn else Nothing)
  {
    hide FromClientCcs;
  }

  lemma AtNothing(p: Params)
    ensures Tail(p, Nothing) == []
  {}

  /** The last flights, in one. */
  lemma AtClientLast(p: Params)
    ensures Tail(p, ClientCcsOn) == ClientLast(p) + Tail(p, if p.resumed then Nothing else TicketOn)
  {
    hide Tail, FromClientCcs, FromTicket;
    AtClientCcs(p);
    AtNextProto(p);
    AtChannelId(p);
    AtClientFinished(p);
    FourPieces(p, Tail(p, if p.resumed then Nothing else TicketOn));
  }

  lemma FourPieces(p: Params, t: seq<Entry>)
    ensures
      var c := [C1(FinishedKind)] + t;
      var n := if p.channelId then [C1(ChannelId)] + c else c;
      [CcsOf(false)] + (if p.nextProto then [C1(NextProto)] + n else n) == ClientLast(p) + t
  {}

  lemma AtServerLast(p: Params)
    ensures Tail(p, TicketOn) == ServerLast(p) + Tail(p, if p.resumed then ClientCcsOn else Nothing)
  {
    hide FromClientCcs;
  }

  lemma AtServerCertificates(p: Params)
    ensures Tail(p, CertificateOn) ==
      Opt(p.certAuth, S(Certificate)) + Opt(p.certAuth && p.status, S(CertificateStatus)) + Tail(p, ServerKeysOn)
  {
    hide FromServerKeys;
  }

  lemma AtServerDone(p: Params)
    ensures Tail(p, RequestOn) == Opt(Asks(p), S(CertificateRequest)) + [S(ServerHelloDone)] + Tail(p, ClientCertificateOn)
  {
    hide FromClientCertificate;
  }

  predicate ServerHead(rest: seq<Entry>, kind: Kind) { rest != [] && rest[0] == S(kind) }

  /** Which message of the server's flight comes next. */
  lemma NextOfServer(p: Params)
    ensures ServerHead(Tail(p, HelloDoneOn), ServerHelloDone)
    ensures ServerHead(Tail(p, RequestOn), if Asks(p) then CertificateRequest else ServerHelloDone)
    ensures ServerHead(Tail(p, ServerKeysOn), if p.keSent then ServerKeyExchange else if Asks(p) then CertificateRequest else ServerHelloDone)
  {
    hide Tail;
    AtServerKeys(p);
    AtRequest(p);
    AtHelloDone(p);
  }

  // ------------------------------------------------------ the states

  /** What an endpoint knows of the client's certificate: nothing yet, whether one is asked for
      (and the server has none yet), or whether one has come; later it does not matter. */
  datatype Stage = Unknown | RequestKnown | NoneYet | CertificateKnown | Past

  /** A state of a machine: whether it is one of the endpoint's, how many states are at most still
      to come, whether the endpoint has sent its Finished, how many of the peer's marks there are
      (its ChangeCipherSpec, the read keys, its Finished), whether only a full handshake goes
      through it, whether records may be waiting to be flushed, what is known of the client's
      certificate, and where the run stands. */
  datatype Place = Place(own: bool, rank: nat, sent: bool, peers: nat, full: bool, sending: bool, stage: Stage, next: Point)

  function At(k: Conf, st: State): (p: Place)
    ensures p.peers <= 3
  {
    match st
    case StartConnect => Place(!k.server, 20, false, 0, false, false, Unknown, Whole)
    case EnterEarlyData => Place(!k.server, 19, false, 0, false, false, Unknown, ServerHelloOn)
    case ReadServerHello => Place(!k.server, 18, false, 0, false, false, Unknown, ServerHelloOn)
    case ReadServerCertificate => Place(!k.server, 17, false, 0, true, false, Unknown, CertificateOn)
    case ReadCertificateStatus => Place(!k.server, 16, false, 0, true, false, Unknown, StatusOn)
    case VerifyServerCertificate => Place(!k.server, 15, false, 0, true, false, Unknown, ServerKeysOn)
    case ReadServerKeyExchange => Place(!k.server, 14, false, 0, true, false, Unknown, ServerKeysOn)
    case ReadCertificateRequest => Place(!k.server, 13, false, 0, true, false, Unknown, RequestOn)
    case ReadServerHelloDone => Place(!k.server, 12, false, 0, true, false, RequestKnown, HelloDoneOn)
    case SendClientCertificate => Place(!k.server, 11, false, 0, true, true, RequestKnown, ClientCertificateOn)
    case SendClientKeyExchange => Place(!k.server, 10, false, 0, true, true, RequestKnown, ClientKeysOn)
    case SendClientCertificateVerify => Place(!k.server, 9, false, 0, true, true, RequestKnown, VerifyOn)
    case SendClientFinished => Place(!k.server, if k.p.resumed then 3 else 8, false, if k.p.resumed then 3 else 0, false, true, Past, ClientCcsOn)
    case FinishFlight => Place(!k.server, if k.p.resumed then 2 else 7, true, if k.p.resumed then 3 else 0, false, false, Past, if k.p.resumed then Nothing else TicketOn)
    case ReadSessionTicket => Place(!k.server, 6, !k.p.resumed, 0, false, false, Past, TicketOn)
    case ProcessServerCcs => Place(!k.server, 5, !k.p.resumed, 1, false, false, Past, ServerFinishedOn)
    case ReadServerFinished => Place(!k.server, 4, !k.p.resumed, 2, false, false, Past, ServerFinishedOn)
    case FinishClientHandshake => Place(!k.server, 1, true, 3, false, false, Past, Nothing)
    case StartAccept => Place(k.server, 20, false, 0, false, false, Unknown, Whole)
    case ReadClientHello => Place(k.server, 19, false, 0, false, false, Unknown, Whole)
    case SelectCertificate => Place(k.server, 18, false, 0, false, false, Unknown, Whole)
    case SelectParameters => Place(k.server, 17, false, 0, false, false, Unknown, Whole)
    case SendServerHello => Place(k.server, 16, false, 0, false, false, NoneYet, ServerHelloOn)
    case SendServerCertificate => Place(k.server, 15, false, 0, true, true, NoneYet, CertificateOn)
    case SendServerKeyExchange => Place(k.server, 14, false, 0, true, true, NoneYet, ServerKeysOn)
    case SendServerHelloDone => Place(k.server, 13, false, 0, true, true, NoneYet, RequestOn)
    case ReadClientCertificate => Place(k.server, 12, false, 0, true, false, NoneYet, ClientCertificateOn)
    case VerifyClientCertificate => Place(k.server, 11, false, 0, true, false, CertificateKnown, ClientKeysOn)
    case ReadClientKeyExchange => Place(k.server, 10, false, 0, true, false, CertificateKnown, ClientKeysOn)
    case ReadClientCertificateVerify => Place(k.server, 9, false, 0, true, false, CertificateKnown, VerifyOn)
    case ReadClientCcs => Place(k.server, 8, k.p.resumed, 0, false, false, Past, ClientCcsOn)
    case ProcessClientCcs => Place(k.server, 7, k.p.resumed, 1, false, false, Past, NextProtoOn)
    case ReadNextProto => Place(k.server, 6, k.p.resumed, 2, false, false, Past, NextProtoOn)
    case ReadChannelId => Place(k.server, 5, k.p.resumed, 2, false, false, Past, ChannelIdOn)
    case ReadClientFinished => Place(k.server, 4, k.p.resumed, 2, false, false, Past, ClientFinishedOn)
    case SendServerFinished => Place(k.server, if k.p.resumed then 9 else 3, false, if k.p.resumed then 0 else 3, false, true, Past, TicketOn)
    case FinishServerHandshake => Place(k.server, 1, true, 3, false, false, Past, Nothing)
    case Done => Place(true, 0, true, 3, false, false, Past, Nothing)
  }

  // The rows of the table, one by one.

  lemma PlaceStartConnect(k: Conf)
    ensures At(k, StartConnect) == Place(!k.server, 20, false, 0, false, false, Unknown, Whole)
  {}

  lemma PlaceEnterEarlyData(k: Conf)
    ensures At(k, EnterEarlyData) == Place(!k.server, 19, false, 0, false, false, Unknown, ServerHelloOn)
  {}

  lemma PlaceReadServerHello(k: Conf)
    ensures At(k, ReadServerHello) == Place(!k.server, 18, false, 0, false, false, Unknown, ServerHelloOn)
  {}

  lemma PlaceReadServerCertificate(k: Conf)
    ensures At(k, ReadServerCertificate) == Place(!k.server, 17, false, 0, true, false, Unknown, CertificateOn)
  {}

  lemma PlaceReadCertificateStatus(k: Conf)
    ensures At(k, ReadCertificateStatus) == Place(!k.server, 16, false, 0, true, false, Unknown, StatusOn)
  {}

  lemma PlaceVerifyServerCertificate(k: Conf)
    ensures At(k, VerifyServerCertificate) == Place(!k.server, 15, false, 0, true, false, Unknown, ServerKeysOn)
  {}

  lemma PlaceReadServerKeyExchange(k: Conf)
    ensures At(k, ReadServerKeyExchange) == Place(!k.server, 14, false, 0, true, false, Unknown, ServerKeysOn)
  {}

  lemma PlaceReadCertificateRequest(k: Conf)
    ensures At(k, ReadCertificateRequest) == Place(!k.server, 13, false, 0, true, false, Unknown, RequestOn)
  {}

  lemma PlaceReadServerHelloDone(k: Conf)
    ensures At(k, ReadServerHelloDone) == Place(!k.server, 12, false, 0, true, false, RequestKnown, HelloDoneOn)
  {}

  lemma PlaceSendClientCertificate(k: Conf)
    ensures At(k, SendClientCertificate) == Place(!k.server, 11, false, 0, true, true, RequestKnown, ClientCertificateOn)
  {}

  lemma PlaceSendClientKeyExchange(k: Conf)
    ensures At(k, SendClientKeyExchange) == Place(!k.server, 10, false, 0, true, true, RequestKnown, ClientKeysOn)
  {}

  lemma PlaceSendClientCertificateVerify(k: Conf)
    ensures At(k, SendClientCertificateVerify) == Place(!k.server, 9, false, 0, true, true, RequestKnown, VerifyOn)
  {}

  lemma PlaceSendClientFinished(k: Conf)
    ensures At(k, SendClientFinished) == Place(!k.server, if k.p.resumed then 3 else 8, false, if k.p.resumed then 3 else 0, false, true, Past, ClientCcsOn)
  {}

  lemma PlaceFinishFlight(k: Conf)
    ensures At(k, FinishFlight) == Place(!k.server, if k.p.resumed then 2 else 7, true, if k.p.resumed then 3 else 0, false, false, Past, if k.p.resumed then Nothing else TicketOn)
  {}

  lemma PlaceReadSessionTicket(k: Conf)
    ensures At(k, ReadSessionTicket) == Place(!k.server, 6, !k.p.resumed, 0, false, false, Past, TicketOn)
  {}

  lemma PlaceProcessServerCcs(k: Conf)
    ensures At(k, ProcessServerCcs) == Place(!k.server, 5, !k.p.resumed, 1, false, false, Past, ServerFinishedOn)
  {}

  lemma PlaceReadServerFinished(k: Conf)
    ensures At(k, ReadServerFinished) == Place(!k.server, 4, !k.p.resumed, 2, false, false, Past, ServerFinishedOn)
  {}

  lemma PlaceFinishClientHandshake(k: Conf)
    ensures At(k, FinishClientHandshake) == Place(!k.server, 1, true, 3, false, false, Past, Nothing)
  {}

  lemma PlaceStartAccept(k: Conf)
    ensures At(k, StartAccept) == Place(k.server, 20, false, 0, false, false, Unknown, Whole)
  {}

  lemma PlaceReadClientHello(k: Conf)
    ensures At(k, ReadClientHello) == Place(k.server, 19, false, 0, false, false, Unknown, Whole)
  {}

  lemma PlaceSelectCertificate(k: Conf)
    ensures At(k, SelectCertificate) == Place(k.server, 18, false, 0, false, false, Unknown, Whole)
  {}

  lemma PlaceSelectParameters(k: Conf)
    ensures At(k, SelectParameters) == Place(k.server, 17, false, 0, false, false, Unknown, Whole)
  {}

  lemma PlaceSendServerHello(k: Conf)
    ensures At(k, SendServerHello) == Place(k.server, 16, false, 0, false, false, NoneYet, ServerHelloOn)
  {}

  lemma PlaceSendServerCertificate(k: Conf)
    ensures At(k, SendServerCertificate) == Place(k.server, 15, false, 0, true, true, NoneYet, CertificateOn)
  {}

  lemma PlaceSendServerKeyExchange(k: Conf)
    ensures At(k, SendServerKeyExchange) == Place(k.server, 14, false, 0, true, true, NoneYet, ServerKeysOn)
  {}

  lemma PlaceSendServerHelloDone(k: Conf)
    ensures At(k, SendServerHelloDone) == Place(k.server, 13, false, 0, true, true, NoneYet, RequestOn)
  {}

  lemma PlaceReadClientCertificate(k: Conf)
    ensures At(k, ReadClientCertificate) == Place(k.server, 12, false, 0, true, false, NoneYet, ClientCertificateOn)
  {}

  lemma PlaceVerifyClientCertificate(k: Conf)
    ensures At(k, VerifyClientCertificate) == Place(k.server, 11, false, 0, true, false, CertificateKnown, ClientKeysOn)
  {}

  lemma PlaceReadClientKeyExchange(k: Conf)
    ensures At(k, ReadClientKeyExchange) == Place(k.server, 10, false, 0, true, false, CertificateKnown, ClientKeysOn)
  {}

  lemma PlaceReadClientCertificateVerify(k: Conf)
    ensures At(k, ReadClientCertificateVerify) == Place(k.server, 9, false, 0, true, false, CertificateKnown, VerifyOn)
  {}

  lemma PlaceReadClientCcs(k: Conf)
    ensures At(k, ReadClientCcs) == Place(k.server, 8, k.p.resumed, 0, false, false, Past, ClientCcsOn)
  {}

  lemma PlaceProcessClientCcs(k: Conf)
    ensures At(k, ProcessClientCcs) == Place(k.server, 7, k.p.resumed, 1, false, false, Past, NextProtoOn)
  {}

  lemma PlaceReadNextProto(k: Conf)
    ensures At(k, ReadNextProto) == Place(k.server, 6, k.p.resumed, 2, false, false, Past, NextProtoOn)
  {}

  lemma PlaceReadChannelId(k: Conf)
    ensures At(k, ReadChannelId) == Place(k.server, 5, k.p.resumed, 2, false, false, Past, ChannelIdOn)
  {}

  lemma PlaceReadClientFinished(k: Conf)
    ensures At(k, ReadClientFinished) == Place(k.server, 4, k.p.resumed, 2, false, false, Past, ClientFinishedOn)
  {}

  lemma PlaceSendServerFinished(k: Conf)
    ensures At(k, SendServerFinished) == Place(k.server, if k.p.resumed then 9 else 3, false, if k.p.resumed then 0 else 3, false, true, Past, TicketOn)
  {}

  lemma PlaceFinishServerHandshake(k: Conf)
    ensures At(k, FinishServerHandshake) == Place(k.server, 1, true, 3, false, false, Past, Nothing)
  {}

  lemma PlaceDone(k: Conf)
    ensures At(k, Done) == Place(true, 0, true, 3, false, false, Past, Nothing)
  {}
}
