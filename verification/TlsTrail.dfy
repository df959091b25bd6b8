/** The way of an endpoint through the states of its machine, against an arbitrary peer: which state
    comes next, what is taken and checked in each, and when it has to wait. A check that fails ends
    the handshake, so an endpoint that is done has made each check that is called for. */
module TlsTrail {
  import opened TlsHandshake
  import opened TlsStates
  import opened TlsRuns

  // ------------------------------------------------------ what each state is there for

  /** What a state does with the message that has been read: nothing; it looks at it; it takes one of
      this kind; or it takes it just if it is of this kind. */
  datatype Taking = TakesNone | Looks | LooksAt(kind: Kind) | Must(kind: Kind) | May(kind: Kind)

  function MustIf(cond: bool, kind: Kind): Taking { if cond then Must(kind) else TakesNone }
  function MayIf(cond: bool, kind: Kind): Taking { if cond then May(kind) else TakesNone }

  /** The message that has been read is of this kind. */
  predicate IsNext(h: Hs, kind: Kind) { h.buffer != [] && KindOf(h.buffer[0]) == kind }

  /** The state behind it (section 7.3 of RFC 5246), how it is left, whether something is checked or done in it that can
      fail, whether it can have to be entered again, and what it takes. */
  datatype Row = Row(after: State, wait: Wait, checks: bool, mayWait: bool, takes: Taking)

  function After(k: Conf, st: State): State
  {
    match st
    case StartConnect => EnterEarlyData
    case EnterEarlyData => ReadServerHello
    case ReadServerHello => if k.p.resumed then ReadSessionTicket else ReadServerCertificate
    case ReadServerCertificate => ReadCertificateStatus
    case ReadCertificateStatus => VerifyServerCertificate
    case VerifyServerCertificate => ReadServerKeyExchange
    case ReadServerKeyExchange => ReadCertificateRequest
    case ReadCertificateRequest => ReadServerHelloDone
    case ReadServerHelloDone => SendClientCertificate
    case SendClientCertificate => SendClientKeyExchange
    case SendClientKeyExchange => SendClientCertificateVerify
    case SendClientCertificateVerify => SendClientFinished
    case SendClientFinished => FinishFlight
    case FinishFlight => if k.p.resumed then FinishClientHandshake else ReadSessionTicket
    case ReadSessionTicket => ProcessServerCcs
    case ProcessServerCcs => ReadServerFinished
    case ReadServerFinished => if k.p.resumed then SendClientFinished else FinishClientHandshake
    case FinishClientHandshake => Done
    case StartAccept => ReadClientHello
    case ReadClientHello => SelectCertificate
    case SelectCertificate => SelectParameters
    case SelectParameters => SendServerHello
    case SendServerHello => if k.p.resumed then SendServerFinished else SendServerCertificate
    case SendServerCertificate => SendServerKeyExchange
    case SendServerKeyExchange => SendServerHelloDone
    case SendServerHelloDone => ReadClientCertificate
    case ReadClientCertificate => VerifyClientCertificate
    case VerifyClientCertificate => ReadClientKeyExchange
    case ReadClientKeyExchange => ReadClientCertificateVerify
    case ReadClientCertificateVerify => ReadClientCcs
    case ReadClientCcs => ProcessClientCcs
    case ProcessClientCcs => ReadNextProto
    case ReadNextProto => ReadChannelId
    case ReadChannelId => ReadClientFinished
    case ReadClientFinished => if k.p.resumed then FinishServerHandshake else SendServerFinished
    case SendServerFinished => if k.p.resumed then ReadClientCcs else FinishServerHandshake
    case FinishServerHandshake => Done
    case Done => Done
  }

  function RowOf(k: Conf, h: Hs): Row
  {
    match h.state
    case StartConnect => Row(After(k, h.state), Flush, true, false, TakesNone)
    case EnterEarlyData => Row(After(k, h.state), Ok, false, false, TakesNone)
    case ReadServerHello => Row(After(k, h.state), Ok, true, false, Must(ServerHello))
    case ReadServerCertificate => Row(After(k, h.state), Ok, k.p.certAuth, false, MustIf(k.p.certAuth, Certificate))
    case ReadCertificateStatus =>
      Row(After(k, h.state), Ok, k.p.status && IsNext(h, CertificateStatus), false, MayIf(k.p.status, CertificateStatus))
    case VerifyServerCertificate => Row(After(k, h.state), Ok, k.p.certAuth, k.p.certAuth, TakesNone)
    case ReadServerKeyExchange =>
      Row(After(k, h.state), Ok, IsNext(h, ServerKeyExchange), false, May(ServerKeyExchange))
    case ReadCertificateRequest =>
      Row(After(k, h.state), Ok, k.p.certAuth && IsNext(h, CertificateRequest), false, MayIf(k.p.certAuth, CertificateRequest))
    case ReadServerHelloDone => Row(After(k, h.state), Ok, true, false, Must(ServerHelloDone))
    case SendClientCertificate => Row(After(k, h.state), Ok, h.certRequest, h.certRequest, TakesNone)
    case SendClientKeyExchange => Row(After(k, h.state), Ok, true, false, TakesNone)
    case SendClientCertificateVerify =>
      Row(After(k, h.state), Ok, h.certRequest && k.p.hasCert, h.certRequest && k.p.hasCert, TakesNone)
    case SendClientFinished => Row(After(k, h.state), Flush, true, k.p.channelId, TakesNone)
    case FinishFlight =>
      Row(After(k, h.state), if !k.p.resumed && k.p.falseStart then EarlyReturn else Ok, !k.p.resumed, false, TakesNone)
    case ReadSessionTicket =>
      Row(After(k, h.state), ReadChangeCipherSpec, k.p.ticket, false, MustIf(k.p.ticket, NewSessionTicket))
    case ProcessServerCcs => Row(After(k, h.state), Ok, true, false, TakesNone)
    case ReadServerFinished => Row(After(k, h.state), Ok, false, false, Must(FinishedKind))
    case FinishClientHandshake => Row(After(k, h.state), Ok, true, false, TakesNone)
    case StartAccept => Row(After(k, h.state), Ok, false, false, TakesNone)
    case ReadClientHello => Row(After(k, h.state), Ok, true, true, LooksAt(ClientHello))
    case SelectCertificate => Row(After(k, h.state), Ok, true, true, Looks)
    case SelectParameters => Row(After(k, h.state), Ok, true, true, Must(ClientHello))
    case SendServerHello => Row(After(k, h.state), Ok, true, false, TakesNone)
    case SendServerCertificate => Row(After(k, h.state), Ok, true, false, TakesNone)
    case SendServerKeyExchange => Row(After(k, h.state), Ok, k.p.keSent, k.p.keSent && k.p.certAuth, TakesNone)
    case SendServerHelloDone => Row(After(k, h.state), Flush, true, false, TakesNone)
    case ReadClientCertificate => Row(After(k, h.state), Ok, h.certRequest, false, MustIf(h.certRequest, Certificate))
    case VerifyClientCertificate => Row(After(k, h.state), Ok, h.peerCert, h.peerCert, TakesNone)
    case ReadClientKeyExchange => Row(After(k, h.state), Ok, true, true, Must(ClientKeyExchange))
    case ReadClientCertificateVerify =>
      Row(After(k, h.state), Ok, h.peerCert, false, MustIf(h.peerCert, CertificateVerify))
    case ReadClientCcs => Row(After(k, h.state), ReadChangeCipherSpec, false, false, TakesNone)
    case ProcessClientCcs => Row(After(k, h.state), Ok, true, false, TakesNone)
    case ReadNextProto => Row(After(k, h.state), Ok, k.p.nextProto, false, MustIf(k.p.nextProto, NextProto))
    case ReadChannelId => Row(After(k, h.state), Ok, k.p.channelId, false, MustIf(k.p.channelId, ChannelId))
    case ReadClientFinished => Row(After(k, h.state), Ok, true, false, Must(FinishedKind))
    case SendServerFinished => Row(After(k, h.state), Flush, true, false, TakesNone)
    case FinishServerHandshake => Row(After(k, h.state), Ok, true, false, TakesNone)
    case Done => Row(After(k, h.state), Error, true, false, TakesNone)
  }

  /** The states in order. */
  function Nth(k: Conf, n: nat): State
  {
    if n == 0 then (if k.server then StartAccept else StartConnect) else After(k, Nth(k, n - 1))
  }

  // Section 7.3 of RFC 5246, state by state.

  /** A client in a new session. */
  lemma FullClientPath(k: Conf)
    requires !k.server && !k.p.resumed
    ensures Nth(k, 0) == StartConnect && Nth(k, 1) == EnterEarlyData
    ensures Nth(k, 2) == ReadServerHello && Nth(k, 3) == ReadServerCertificate
    ensures Nth(k, 4) == ReadCertificateStatus && Nth(k, 5) == VerifyServerCertificate
    ensures Nth(k, 6) == ReadServerKeyExchange && Nth(k, 7) == ReadCertificateRequest
    ensures Nth(k, 8) == ReadServerHelloDone && Nth(k, 9) == SendClientCertificate
    ensures Nth(k, 10) == SendClientKeyExchange && Nth(k, 11) == SendClientCertificateVerify
    ensures Nth(k, 12) == SendClientFinished && Nth(k, 13) == FinishFlight
    ensures Nth(k, 14) == ReadSessionTicket && Nth(k, 15) == ProcessServerCcs
    ensures Nth(k, 16) == ReadServerFinished && Nth(k, 17) == FinishClientHandshake
    ensures Nth(k, 18) == Done
  {
    hide Nth, After;
    NthFirst(k);
    FullClientPath1(k, 0);
    FullClientPath2(k, 3);
    FullClientPath3(k, 6);
    FullClientPath4(k, 9);
    FullClientPath5(k, 12);
    FullClientPath6(k, 15);
  }

  lemma FullClientPath1(k: Conf, n: nat)
    requires !k.server && !k.p.resumed && Nth(k, n) == StartConnect
    ensures Nth(k, n + 1) == EnterEarlyData && Nth(k, n + 2) == ReadServerHello
    ensures Nth(k, n + 3) == ReadServerCertificate
  {
    hide Nth;
    NthStep(k, n, StartConnect, EnterEarlyData);
    NthStep(k, n + 1, EnterEarlyData, ReadServerHello);
    NthStep(k, n + 2, ReadServerHello, ReadServerCertificate);
  }

  lemma FullClientPath2(k: Conf, n: nat)
    requires !k.server && !k.p.resumed && Nth(k, n) == ReadServerCertificate
    ensures Nth(k, n + 1) == ReadCertificateStatus && Nth(k, n + 2) == VerifyServerCertificate
    ensures Nth(k, n + 3) == ReadServerKeyExchange
  {
    hide Nth;
    NthStep(k, n, ReadServerCertificate, ReadCertificateStatus);
    NthStep(k, n + 1, ReadCertificateStatus, VerifyServerCertificate);
    NthStep(k, n + 2, VerifyServerCertificate, ReadServerKeyExchange);
  }

  lemma FullClientPath3(k: Conf, n: nat)
    requires !k.server && !k.p.resumed && Nth(k, n) == ReadServerKeyExchange
    ensures Nth(k, n + 1) == ReadCertificateRequest && Nth(k, n + 2) == ReadServerHelloDone
    ensures Nth(k, n + 3) == SendClientCertificate
  {
    hide Nth;
    NthStep(k, n, ReadServerKeyExchange, ReadCertificateRequest);
    NthStep(k, n + 1, ReadCertificateRequest, ReadServerHelloDone);
    NthStep(k, n + 2, ReadServerHelloDone, SendClientCertificate);
  }

  lemma FullClientPath4(k: Conf, n: nat)
    requires !k.server && !k.p.resumed && Nth(k, n) == SendClientCertificate
    ensures Nth(k, n + 1) == SendClientKeyExchange && Nth(k, n + 2) == SendClientCertificateVerify
    ensures Nth(k, n + 3) == SendClientFinished
  {
    hide Nth;
    NthStep(k, n, SendClientCertificate, SendClientKeyExchange);
    NthStep(k, n + 1, SendClientKeyExchange, SendClientCertificateVerify);
    NthStep(k, n + 2, SendClientCertificateVerify, SendClientFinished);
  }

  lemma FullClientPath5(k: Conf, n: nat)
    requires !k.server && !k.p.resumed && Nth(k, n) == SendClientFinished
    ensures Nth(k, n + 1) == FinishFlight && Nth(k, n + 2) == ReadSessionTicket
    ensures Nth(k, n + 3) == ProcessServerCcs
  {
    hide Nth;
    NthStep(k, n, SendClientFinished, FinishFlight);
    NthStep(k, n + 1, FinishFlight, ReadSessionTicket);
    NthStep(k, n + 2, ReadSessionTicket, ProcessServerCcs);
  }

  lemma FullClientPath6(k: Conf, n: nat)
    requires !k.server && !k.p.resumed && Nth(k, n) == ProcessServerCcs
    ensures Nth(k, n + 1) == ReadServerFinished && Nth(k, n + 2) == FinishClientHandshake
    ensures Nth(k, n + 3) == Done
  {
    hide Nth;
    NthStep(k, n, ProcessServerCcs, ReadServerFinished);
    NthStep(k, n + 1, ReadServerFinished, FinishClientHandshake);
    NthStep(k, n + 2, FinishClientHandshake, Done);
  }

  /** A client that resumes one. */
  lemma ResumedClientPath(k: Conf)
    requires !k.server && k.p.resumed
    ensures Nth(k, 0) == StartConnect && Nth(k, 1) == EnterEarlyData
    ensures Nth(k, 2) == ReadServerHello && Nth(k, 3) == ReadSessionTicket
    ensures Nth(k, 4) == ProcessServerCcs && Nth(k, 5) == ReadServerFinished
    ensures Nth(k, 6) == SendClientFinished && Nth(k, 7) == FinishFlight
    ensures Nth(k, 8) == FinishClientHandshake && Nth(k, 9) == Done
  {
    hide Nth, After;
    NthFirst(k);
    ResumedClientPath1(k, 0);
    ResumedClientPath2(k, 3);
    ResumedClientPath3(k, 6);
  }

  lemma ResumedClientPath1(k: Conf, n: nat)
    requires !k.server && k.p.resumed && Nth(k, n) == StartConnect
    ensures Nth(k, n + 1) == EnterEarlyData && Nth(k, n + 2) == ReadServerHello
    ensures Nth(k, n + 3) == ReadSessionTicket
  {
    hide Nth;
    NthStep(k, n, StartConnect, EnterEarlyData);
    NthStep(k, n + 1, EnterEarlyData, ReadServerHello);
    NthStep(k, n + 2, ReadServerHello, ReadSessionTicket);
  }

  lemma ResumedClientPath2(k: Conf, n: nat)
    requires !k.server && k.p.resumed && Nth(k, n) == ReadSessionTicket
    ensures Nth(k, n + 1) == ProcessServerCcs && Nth(k, n + 2) == ReadServerFinished
    ensures Nth(k, n + 3) == SendClientFinished
  {
    hide Nth;
    NthStep(k, n, ReadSessionTicket, ProcessServerCcs);
    NthStep(k, n + 1, ProcessServerCcs, ReadServerFinished);
    NthStep(k, n + 2, ReadServerFinished, SendClientFinished);
  }

  lemma ResumedClientPath3(k: Conf, n: nat)
    requires !k.server && k.p.resumed && Nth(k, n) == SendClientFinished
    ensures Nth(k, n + 1) == FinishFlight && Nth(k, n + 2) == FinishClientHandshake
    ensures Nth(k, n + 3) == Done
  {
    hide Nth;
    NthStep(k, n, SendClientFinished, FinishFlight);
    NthStep(k, n + 1, FinishFlight, FinishClientHandshake);
    NthStep(k, n + 2, FinishClientHandshake, Done);
  }

  /** A server in a new session. */
  lemma FullServerPath(k: Conf)
    requires k.server && !k.p.resumed
    ensures Nth(k, 0) == StartAccept && Nth(k, 1) == ReadClientHello
    ensures Nth(k, 2) == SelectCertificate && Nth(k, 3) == SelectParameters
    ensures Nth(k, 4) == SendServerHello && Nth(k, 5) == SendServerCertificate
    ensures Nth(k, 6) == SendServerKeyExchange && Nth(k, 7) == SendServerHelloDone
    ensures Nth(k, 8) == ReadClientCertificate && Nth(k, 9) == VerifyClientCertificate
    ensures Nth(k, 10) == ReadClientKeyExchange && Nth(k, 11) == ReadClientCertificateVerify
    ensures Nth(k, 12) == ReadClientCcs && Nth(k, 13) == ProcessClientCcs
    ensures Nth(k, 14) == ReadNextProto && Nth(k, 15) == ReadChannelId
    ensures Nth(k, 16) == ReadClientFinished && Nth(k, 17) == SendServerFinished
    ensures Nth(k, 18) == FinishServerHandshake && Nth(k, 19) == Done
  {
    hide Nth, After;
    NthFirst(k);
    FullServerPath1(k, 0);
    FullServerPath2(k, 3);
    FullServerPath3(k, 6);
    FullServerPath4(k, 9);
    FullServerPath5(k, 12);
    FullServerPath6(k, 15);
    FullServerPath7(k, 18);
  }

  lemma FullServerPath1(k: Conf, n: nat)
    requires k.server && !k.p.resumed && Nth(k, n) == StartAccept
    ensures Nth(k, n + 1) == ReadClientHello && Nth(k, n + 2) == SelectCertificate
    ensures Nth(k, n + 3) == SelectParameters
  {
    hide Nth;
    NthStep(k, n, StartAccept, ReadClientHello);
    NthStep(k, n + 1, ReadClientHello, SelectCertificate);
    NthStep(k, n + 2, SelectCertificate, SelectParameters);
  }

  lemma FullServerPath2(k: Conf, n: nat)
    requires k.server && !k.p.resumed && Nth(k, n) == SelectParameters
    ensures Nth(k, n + 1) == SendServerHello && Nth(k, n + 2) == SendServerCertificate
    ensures Nth(k, n + 3) == SendServerKeyExchange
  {
    hide Nth;
    NthStep(k, n, SelectParameters, SendServerHello);
    NthStep(k, n + 1, SendServerHello, SendServerCertificate);
    NthStep(k, n + 2, SendServerCertificate, SendServerKeyExchange);
  }

  lemma FullServerPath3(k: Conf, n: nat)
    requires k.server && !k.p.resumed && Nth(k, n) == SendServerKeyExchange
    ensures Nth(k, n + 1) == SendServerHelloDone && Nth(k, n + 2) == ReadClientCertificate
    ensures Nth(k, n + 3) == VerifyClientCertificate
  {
    hide Nth;
    NthStep(k, n, SendServerKeyExchange, SendServerHelloDone);
    NthStep(k, n + 1, SendServerHelloDone, ReadClientCertificate);
    NthStep(k, n + 2, ReadClientCertificate, VerifyClientCertificate);
  }

  lemma FullServerPath4(k: Conf, n: nat)
    requires k.server && !k.p.resumed && Nth(k, n) == VerifyClientCertificate
    ensures Nth(k, n + 1) == ReadClientKeyExchange && Nth(k, n + 2) == ReadClientCertificateVerify
    ensures Nth(k, n + 3) == ReadClientCcs
  {
    hide Nth;
    NthStep(k, n, VerifyClientCertificate, ReadClientKeyExchange);
    NthStep(k, n + 1, ReadClientKeyExchange, ReadClientCertificateVerify);
    NthStep(k, n + 2, ReadClientCertificateVerify, ReadClientCcs);
  }

  lemma FullServerPath5(k: Conf, n: nat)
    requires k.server && !k.p.resumed && Nth(k, n) == ReadClientCcs
    ensures Nth(k, n + 1) == ProcessClientCcs && Nth(k, n + 2) == ReadNextProto
    ensures Nth(k, n + 3) == ReadChannelId
  {
    hide Nth;
    NthStep(k, n, ReadClientCcs, ProcessClientCcs);
    NthStep(k, n + 1, ProcessClientCcs, ReadNextProto);
    NthStep(k, n + 2, ReadNextProto, ReadChannelId);
  }

  lemma FullServerPath6(k: Conf, n: nat)
    requires k.server && !k.p.resumed && Nth(k, n) == ReadChannelId
    ensures Nth(k, n + 1) == ReadClientFinished && Nth(k, n + 2) == SendServerFinished
    ensures Nth(k, n + 3) == FinishServerHandshake
  {
    hide Nth;
    NthStep(k, n, ReadChannelId, ReadClientFinished);
    NthStep(k, n + 1, ReadClientFinished, SendServerFinished);
    NthStep(k, n + 2, SendServerFinished, FinishServerHandshake);
  }

  lemma FullServerPath7(k: Conf, n: nat)
    requires k.server && !k.p.resumed && Nth(k, n) == FinishServerHandshake
    ensures Nth(k, n + 1) == Done
  {
    hide Nth;
    NthStep(k, n, FinishServerHandshake, Done);
  }

  /** A server that resumes one. */
  lemma ResumedServerPath(k: Conf)
    requires k.server && k.p.resumed
    ensures Nth(k, 0) == StartAccept && Nth(k, 1) == ReadClientHello
    ensures Nth(k, 2) == SelectCertificate && Nth(k, 3) == SelectParameters
    ensures Nth(k, 4) == SendServerHello && Nth(k, 5) == SendServerFinished
    ensures Nth(k, 6) == ReadClientCcs && Nth(k, 7) == ProcessClientCcs
    ensures Nth(k, 8) == ReadNextProto && Nth(k, 9) == ReadChannelId
    ensures Nth(k, 10) == ReadClientFinished && Nth(k, 11) == FinishServerHandshake
    ensures Nth(k, 12) == Done
  {
    hide Nth, After;
    NthFirst(k);
    ResumedServerPath1(k, 0);
    ResumedServerPath2(k, 3);
    ResumedServerPath3(k, 6);
    ResumedServerPath4(k, 9);
  }

  lemma ResumedServerPath1(k: Conf, n: nat)
    requires k.server && k.p.resumed && Nth(k, n) == StartAccept
    ensures Nth(k, n + 1) == ReadClientHello && Nth(k, n + 2) == SelectCertificate
    ensures Nth(k, n + 3) == SelectParameters
  {
    hide Nth;
    NthStep(k, n, StartAccept, ReadClientHello);
    NthStep(k, n + 1, ReadClientHello, SelectCertificate);
    NthStep(k, n + 2, SelectCertificate, SelectParameters);
  }

  lemma ResumedServerPath2(k: Conf, n: nat)
    requires k.server && k.p.resumed && Nth(k, n) == SelectParameters
    ensures Nth(k, n + 1) == SendServerHello && Nth(k, n + 2) == SendServerFinished
    ensures Nth(k, n + 3) == ReadClientCcs
  {
    hide Nth;
    NthStep(k, n, SelectParameters, SendServerHello);
    NthStep(k, n + 1, SendServerHello, SendServerFinished);
    NthStep(k, n + 2, SendServerFinished, ReadClientCcs);
  }

  lemma ResumedServerPath3(k: Conf, n: nat)
    requires k.server && k.p.resumed && Nth(k, n) == ReadClientCcs
    ensures Nth(k, n + 1) == ProcessClientCcs && Nth(k, n + 2) == ReadNextProto
    ensures Nth(k, n + 3) == ReadChannelId
  {
    hide Nth;
    NthStep(k, n, ReadClientCcs, ProcessClientCcs);
    NthStep(k, n + 1, ProcessClientCcs, ReadNextProto);
    NthStep(k, n + 2, ReadNextProto, ReadChannelId);
  }

  lemma ResumedServerPath4(k: Conf, n: nat)
    requires k.server && k.p.resumed && Nth(k, n) == ReadChannelId
    ensures Nth(k, n + 1) == ReadClientFinished && Nth(k, n + 2) == FinishServerHandshake
    ensures Nth(k, n + 3) == Done
  {
    hide Nth;
    NthStep(k, n, ReadChannelId, ReadClientFinished);
    NthStep(k, n + 1, ReadClientFinished, FinishServerHandshake);
    NthStep(k, n + 2, FinishServerHandshake, Done);
  }

  // ------------------------------------------------------ one state

  /** The message that has been read is taken. */
  predicate Took(k: Conf, h: Hs)
  {
    var t := RowOf(k, h).takes;
    t.Must? || (t.May? && IsNext(h, t.kind))
  }

  /** What has been read is what the state can go on with. */
  predicate GoesOn(k: Conf, h: Hs)
  {
    && (match RowOf(k, h).takes
        case TakesNone => true
        case Looks => h.buffer != []
        case LooksAt(kind) => IsNext(h, kind)
        case Must(kind) => IsNext(h, kind)
        case May(kind) => h.buffer != [])
    && (h.state == ReadServerKeyExchange ==> if Took(k, h) then k.p.keAllowed else !k.p.keRequired)
    && (h.state == ReadCertificateRequest && k.p.certAuth && !Took(k, h) ==> IsNext(h, ServerHelloDone))
    && (h.state == ReadClientCertificate && h.certRequest && k.p.needCert ==> h.buffer[0] != Message(Certificate, 0))
    && (h.state == ProcessServerCcs || h.state == ProcessClientCcs ==> h.buffer == [])
    && (h.state == ReadServerFinished || h.state == ReadClientFinished ==> h.buffer[0] == Finished(!k.server, h.transcript))
  }

  /** What is then known of the client's certificate. */
  predicate Learns(k: Conf, h: Hs, r: Hs)
    requires GoesOn(k, h)
  {
    && r.certRequest == (if h.state == SelectParameters then Asks(k.p)
                         else h.certRequest || (h.state == ReadCertificateRequest && Took(k, h)))
    && r.peerCert == (if h.state == ReadClientCertificate && h.certRequest then h.buffer[0] != Message(Certificate, 0)
                      else h.peerCert)
  }

  /** The state is left: for the one behind it, with every check made and nothing to wait for. */
  predicate Leaves(k: Conf, h: Hs, c: Choice, r: Stepped)
  {
    var row := RowOf(k, h);
    && r.hs.state == row.after && r.wait == row.wait
    && (row.checks ==> !c.Fail?) && (row.mayWait ==> !c.Retry?)
    && GoesOn(k, h) && Learns(k, h, r.hs)
    && r.hs.buffer == (if Took(k, h) then h.buffer[1..] else h.buffer)
  }

  /** It waits for a message, */
  predicate WaitsForMessage(k: Conf, h: Hs, r: Stepped)
  {
    r.wait == ReadMessage && r.hs == h && h.buffer == [] && !RowOf(k, h).takes.TakesNone?
  }

  /** or for the caller. */
  predicate WaitsForCaller(k: Conf, h: Hs, c: Choice, r: Stepped)
  {
    r.wait == Async && r.hs == h && c.Retry? && RowOf(k, h).mayWait
  }

  predicate StepIs(k: Conf, h: Hs, c: Choice, r: Stepped)
  {
    r.wait != Error ==> Leaves(k, h, c, r) || WaitsForMessage(k, h, r) || WaitsForCaller(k, h, c, r)
  }

  /** What is sent leaves alone what has been read. */
  lemma SendingKeeps()
    ensures forall server, h, cond, kind, body :: var r := AddIf(server, h, cond, kind, body);
      r.buffer == h.buffer && r.certRequest == h.certRequest && r.peerCert == h.peerCert
    ensures forall server, h :: var r := SendFinished(server, h);
      r.buffer == h.buffer && r.certRequest == h.certRequest && r.peerCert == h.peerCert
    ensures forall server, h :: var r := ChangeWriteKeys(server, h);
      r.buffer == h.buffer && r.certRequest == h.certRequest && r.peerCert == h.peerCert
  {
    hide Coherent, Marks, Messages, AllSent, AllGot;
  }

  lemma StartConnectIs(k: Conf, h: Hs, c: Choice)
    requires !k.server && h.state == StartConnect
    ensures StepIs(k, h, c, DoStartConnect(k, h, c))
  {
    hide Coherent, Marks, Messages, AddIf, Add, AddCcs, Note, ChangeWriteKeys, SendFinished;
    SendingKeeps();
  }

  lemma EnterEarlyDataIs(k: Conf, h: Hs, c: Choice)
    requires !k.server && h.state == EnterEarlyData
    ensures StepIs(k, h, c, DoEnterEarlyData(k, h, c))
  {
    hide Coherent, Marks, Messages, AddIf, Add, AddCcs, Note, ChangeWriteKeys, SendFinished;
  }

  lemma ReadServerHelloIs(k: Conf, h: Hs, c: Choice)
    requires !k.server && h.state == ReadServerHello
    ensures StepIs(k, h, c, DoReadServerHello(k, h, c))
  {
    hide Coherent, Marks, Messages, AddIf, Add, AddCcs, Note, ChangeWriteKeys, SendFinished;
  }

  lemma ReadServerCertificateIs(k: Conf, h: Hs, c: Choice)
    requires !k.server && h.state == ReadServerCertificate
    ensures StepIs(k, h, c, DoReadServerCertificate(k, h, c))
  {
    hide Coherent, Marks, Messages, AddIf, Add, AddCcs, Note, ChangeWriteKeys, SendFinished;
  }

  lemma ReadCertificateStatusIs(k: Conf, h: Hs, c: Choice)
    requires !k.server && h.state == ReadCertificateStatus
    ensures StepIs(k, h, c, DoReadCertificateStatus(k, h, c))
  {
    hide Coherent, Marks, Messages, AddIf, Add, AddCcs, Note, ChangeWriteKeys, SendFinished;
  }

  lemma VerifyServerCertificateIs(k: Conf, h: Hs, c: Choice)
    requires !k.server && h.state == VerifyServerCertificate
    ensures StepIs(k, h, c, DoVerifyServerCertificate(k, h, c))
  {
    hide Coherent, Marks, Messages, AddIf, Add, AddCcs, Note, ChangeWriteKeys, SendFinished;
  }

  lemma ReadServerKeyExchangeIs(k: Conf, h: Hs, c: Choice)
    requires !k.server && h.state == ReadServerKeyExchange
    ensures StepIs(k, h, c, DoReadServerKeyExchange(k, h, c))
  {
    hide Coherent, Marks, Messages, AddIf, Add, AddCcs, Note, ChangeWriteKeys, SendFinished;
  }

  lemma ReadCertificateRequestIs(k: Conf, h: Hs, c: Choice)
    requires !k.server && h.state == ReadCertificateRequest
    ensures StepIs(k, h, c, DoReadCertificateRequest(k, h, c))
  {
    hide Coherent, Marks, Messages, AddIf, Add, AddCcs, Note, ChangeWriteKeys, SendFinished;
  }

  lemma ReadServerHelloDoneIs(k: Conf, h: Hs, c: Choice)
    requires !k.server && h.state == ReadServerHelloDone
    ensures StepIs(k, h, c, DoReadServerHelloDone(k, h, c))
  {
    hide Coherent, Marks, Messages, AddIf, Add, AddCcs, Note, ChangeWriteKeys, SendFinished;
  }

  lemma SendClientCertificateIs(k: Conf, h: Hs, c: Choice)
    requires !k.server && h.state == SendClientCertificate
    ensures StepIs(k, h, c, DoSendClientCertificate(k, h, c))
  {
    hide Coherent, Marks, Messages, AddIf, Add, AddCcs, Note, ChangeWriteKeys, SendFinished;
    SendingKeeps();
  }

  lemma SendClientKeyExchangeIs(k: Conf, h: Hs, c: Choice)
    requires !k.server && h.state == SendClientKeyExchange
    ensures StepIs(k, h, c, DoSendClientKeyExchange(k, h, c))
  {
    hide Coherent, Marks, Messages, AddIf, Add, AddCcs, Note, ChangeWriteKeys, SendFinished;
    SendingKeeps();
  }

  lemma SendClientCertificateVerifyIs(k: Conf, h: Hs, c: Choice)
    requires !k.server && h.state == SendClientCertificateVerify
    ensures StepIs(k, h, c, DoSendClientCertificateVerify(k, h, c))
  {
    hide Coherent, Marks, Messages, AddIf, Add, AddCcs, Note, ChangeWriteKeys, SendFinished;
    SendingKeeps();
  }

  lemma SendClientFinishedIs(k: Conf, h: Hs, c: Choice)
    requires !k.server && h.state == SendClientFinished
    ensures StepIs(k, h, c, DoSendClientFinished(k, h, c))
  {
    hide Coherent, Marks, Messages, AddIf, Add, AddCcs, Note, ChangeWriteKeys, SendFinished;
    SendingKeeps();
  }

  lemma FinishFlightIs(k: Conf, h: Hs, c: Choice)
    requires !k.server && h.state == FinishFlight
    ensures StepIs(k, h, c, DoFinishFlight(k, h, c))
  {
    hide Coherent, Marks, Messages, AddIf, Add, AddCcs, Note, ChangeWriteKeys, SendFinished;
  }

  lemma ReadSessionTicketIs(k: Conf, h: Hs, c: Choice)
    requires !k.server && h.state == ReadSessionTicket
    ensures StepIs(k, h, c, DoReadSessionTicket(k, h, c))
  {
    hide Coherent, Marks, Messages, AddIf, Add, AddCcs, Note, ChangeWriteKeys, SendFinished;
  }

  lemma ProcessServerCcsIs(k: Conf, h: Hs, c: Choice)
    requires !k.server && h.state == ProcessServerCcs
    ensures StepIs(k, h, c, DoProcessServerCcs(k, h, c))
  {
    hide Coherent, Marks, Messages, AddIf, Add, AddCcs, Note, ChangeWriteKeys, SendFinished;
  }

  lemma ReadServerFinishedIs(k: Conf, h: Hs, c: Choice)
    requires !k.server && h.state == ReadServerFinished
    ensures StepIs(k, h, c, DoReadServerFinished(k, h, c))
  {
    hide Coherent, Marks, Messages, AddIf, Add, AddCcs, Note, ChangeWriteKeys, SendFinished;
  }

  lemma FinishClientHandshakeIs(k: Conf, h: Hs, c: Choice)
    requires !k.server && h.state == FinishClientHandshake
    ensures StepIs(k, h, c, DoFinishClientHandshake(k, h, c))
  {
    hide Coherent, Marks, Messages, AddIf, Add, AddCcs, Note, ChangeWriteKeys, SendFinished;
  }

  lemma StartAcceptIs(k: Conf, h: Hs, c: Choice)
    requires k.server && h.state == StartAccept
    ensures StepIs(k, h, c, DoStartAccept(k, h, c))
  {
    hide Coherent, Marks, Messages, AddIf, Add, AddCcs, Note, ChangeWriteKeys, SendFinished;
  }

  lemma ReadClientHelloIs(k: Conf, h: Hs, c: Choice)
    requires k.server && h.state == ReadClientHello
    ensures StepIs(k, h, c, DoReadClientHello(k, h, c))
  {
    hide Coherent, Marks, Messages, AddIf, Add, AddCcs, Note, ChangeWriteKeys, SendFinished;
  }

  lemma SelectCertificateIs(k: Conf, h: Hs, c: Choice)
    requires k.server && h.state == SelectCertificate
    ensures StepIs(k, h, c, DoSelectCertificate(k, h, c))
  {
    hide Coherent, Marks, Messages, AddIf, Add, AddCcs, Note, ChangeWriteKeys, SendFinished;
  }

  lemma SelectParametersIs(k: Conf, h: Hs, c: Choice)
    requires k.server && h.state == SelectParameters
    ensures StepIs(k, h, c, DoSelectParameters(k, h, c))
  {
    hide Coherent, Marks, Messages, AddIf, Add, AddCcs, Note, ChangeWriteKeys, SendFinished;
  }

  lemma SendServerHelloIs(k: Conf, h: Hs, c: Choice)
    requires k.server && h.state == SendServerHello
    ensures StepIs(k, h, c, DoSendServerHello(k, h, c))
  {
    hide Coherent, Marks, Messages, AddIf, Add, AddCcs, Note, ChangeWriteKeys, SendFinished;
    SendingKeeps();
  }

  lemma SendServerCertificateIs(k: Conf, h: Hs, c: Choice)
    requires k.server && h.state == SendServerCertificate
    ensures StepIs(k, h, c, DoSendServerCertificate(k, h, c))
  {
    hide Coherent, Marks, Messages, AddIf, Add, AddCcs, Note, ChangeWriteKeys, SendFinished;
    SendingKeeps();
  }

  lemma SendServerKeyExchangeIs(k: Conf, h: Hs, c: Choice)
    requires k.server && h.state == SendServerKeyExchange
    ensures StepIs(k, h, c, DoSendServerKeyExchange(k, h, c))
  {
    hide Coherent, Marks, Messages, AddIf, Add, AddCcs, Note, ChangeWriteKeys, SendFinished;
    SendingKeeps();
  }

  lemma SendServerHelloDoneIs(k: Conf, h: Hs, c: Choice)
    requires k.server && h.state == SendServerHelloDone
    ensures StepIs(k, h, c, DoSendServerHelloDone(k, h, c))
  {
    hide Coherent, Marks, Messages, AddIf, Add, AddCcs, Note, ChangeWriteKeys, SendFinished;
    SendingKeeps();
  }

  lemma ReadClientCertificateIs(k: Conf, h: Hs, c: Choice)
    requires k.server && h.state == ReadClientCertificate
    ensures StepIs(k, h, c, DoReadClientCertificate(k, h, c))
  {
    hide Coherent, Marks, Messages, AddIf, Add, AddCcs, Note, ChangeWriteKeys, SendFinished;
  }

  lemma VerifyClientCertificateIs(k: Conf, h: Hs, c: Choice)
    requires k.server && h.state == VerifyClientCertificate
    ensures StepIs(k, h, c, DoVerifyClientCertificate(k, h, c))
  {
    hide Coherent, Marks, Messages, AddIf, Add, AddCcs, Note, ChangeWriteKeys, SendFinished;
  }

  lemma ReadClientKeyExchangeIs(k: Conf, h: Hs, c: Choice)
    requires k.server && h.state == ReadClientKeyExchange
    ensures StepIs(k, h, c, DoReadClientKeyExchange(k, h, c))
  {
    hide Coherent, Marks, Messages, AddIf, Add, AddCcs, Note, ChangeWriteKeys, SendFinished;
  }

  lemma ReadClientCertificateVerifyIs(k: Conf, h: Hs, c: Choice)
    requires k.server && h.state == ReadClientCertificateVerify
    ensures StepIs(k, h, c, DoReadClientCertificateVerify(k, h, c))
  {
    hide Coherent, Marks, Messages, AddIf, Add, AddCcs, Note, ChangeWriteKeys, SendFinished;
  }

  lemma ReadClientCcsIs(k: Conf, h: Hs, c: Choice)
    requires k.server && h.state == ReadClientCcs
    ensures StepIs(k, h, c, DoReadClientCcs(k, h, c))
  {
    hide Coherent, Marks, Messages, AddIf, Add, AddCcs, Note, ChangeWriteKeys, SendFinished;
  }

  lemma ProcessClientCcsIs(k: Conf, h: Hs, c: Choice)
    requires k.server && h.state == ProcessClientCcs
    ensures StepIs(k, h, c, DoProcessClientCcs(k, h, c))
  {
    hide Coherent, Marks, Messages, AddIf, Add, AddCcs, Note, ChangeWriteKeys, SendFinished;
  }

  lemma ReadNextProtoIs(k: Conf, h: Hs, c: Choice)
    requires k.server && h.state == ReadNextProto
    ensures StepIs(k, h, c, DoReadNextProto(k, h, c))
  {
    hide Coherent, Marks, Messages, AddIf, Add, AddCcs, Note, ChangeWriteKeys, SendFinished;
  }

  lemma ReadChannelIdIs(k: Conf, h: Hs, c: Choice)
    requires k.server && h.state == ReadChannelId
    ensures StepIs(k, h, c, DoReadChannelId(k, h, c))
  {
    hide Coherent, Marks, Messages, AddIf, Add, AddCcs, Note, ChangeWriteKeys, SendFinished;
  }

  lemma ReadClientFinishedIs(k: Conf, h: Hs, c: Choice)
    requires k.server && h.state == ReadClientFinished
    ensures StepIs(k, h, c, DoReadClientFinished(k, h, c))
  {
    hide Coherent, Marks, Messages, AddIf, Add, AddCcs, Note, ChangeWriteKeys, SendFinished;
  }

  lemma SendServerFinishedIs(k: Conf, h: Hs, c: Choice)
    requires k.server && h.state == SendServerFinished
    ensures StepIs(k, h, c, DoSendServerFinished(k, h, c))
  {
    hide Coherent, Marks, Messages, AddIf, Add, AddCcs, Note, ChangeWriteKeys, SendFinished;
    SendingKeeps();
  }

  lemma FinishServerHandshakeIs(k: Conf, h: Hs, c: Choice)
    requires k.server && h.state == FinishServerHandshake
    ensures StepIs(k, h, c, DoFinishServerHandshake(k, h, c))
  {
    hide Coherent, Marks, Messages, AddIf, Add, AddCcs, Note, ChangeWriteKeys, SendFinished;
  }

  lemma ClientIs(k: Conf, h: Hs, c: Choice)
    requires !k.server
    ensures StepIs(k, h, c, ClientStep(k, h, c))
  {
    hide StepIs, Coherent, Marks, Messages;
    hide DoStartConnect, DoEnterEarlyData, DoReadServerHello, DoReadServerCertificate, DoReadCertificateStatus,
      DoVerifyServerCertificate, DoReadServerKeyExchange, DoReadCertificateRequest, DoReadServerHelloDone,
      DoSendClientCertificate, DoSendClientKeyExchange, DoSendClientCertificateVerify, DoSendClientFinished,
      DoFinishFlight, DoReadSessionTicket, DoProcessServerCcs, DoReadServerFinished, DoFinishClientHandshake;
    match h.state
    case StartConnect => StartConnectIs(k, h, c);
    case EnterEarlyData => EnterEarlyDataIs(k, h, c);
    case ReadServerHello => ReadServerHelloIs(k, h, c);
    case ReadServerCertificate => ReadServerCertificateIs(k, h, c);
    case ReadCertificateStatus => ReadCertificateStatusIs(k, h, c);
    case VerifyServerCertificate => VerifyServerCertificateIs(k, h, c);
    case ReadServerKeyExchange => ReadServerKeyExchangeIs(k, h, c);
    case ReadCertificateRequest => ReadCertificateRequestIs(k, h, c);
    case ReadServerHelloDone => ReadServerHelloDoneIs(k, h, c);
    case SendClientCertificate => SendClientCertificateIs(k, h, c);
    case SendClientKeyExchange => SendClientKeyExchangeIs(k, h, c);
    case SendClientCertificateVerify => SendClientCertificateVerifyIs(k, h, c);
    case SendClientFinished => SendClientFinishedIs(k, h, c);
    case FinishFlight => FinishFlightIs(k, h, c);
    case ReadSessionTicket => ReadSessionTicketIs(k, h, c);
    case ProcessServerCcs => ProcessServerCcsIs(k, h, c);
    case ReadServerFinished => ReadServerFinishedIs(k, h, c);
    case FinishClientHandshake => FinishClientHandshakeIs(k, h, c);
    case _ => FailedIs(k, h, c);
  }

  lemma ServerIs(k: Conf, h: Hs, c: Choice)
    requires k.server
    ensures StepIs(k, h, c, ServerStep(k, h, c))
  {
    hide StepIs, Coherent, Marks, Messages;
    hide DoStartAccept, DoReadClientHello, DoSelectCertificate, DoSelectParameters, DoSendServerHello,
      DoSendServerCertificate, DoSendServerKeyExchange, DoSendServerHelloDone, DoReadClientCertificate,
      DoVerifyClientCertificate, DoReadClientKeyExchange, DoReadClientCertificateVerify, DoReadClientCcs,
      DoProcessClientCcs, DoReadNextProto, DoReadChannelId, DoReadClientFinished, DoSendServerFinished,
      DoFinishServerHandshake;
    match h.state
    case StartAccept => StartAcceptIs(k, h, c);
    case ReadClientHello => ReadClientHelloIs(k, h, c);
    case SelectCertificate => SelectCertificateIs(k, h, c);
    case SelectParameters => SelectParametersIs(k, h, c);
    case SendServerHello => SendServerHelloIs(k, h, c);
    case SendServerCertificate => SendServerCertificateIs(k, h, c);
    case SendServerKeyExchange => SendServerKeyExchangeIs(k, h, c);
    case SendServerHelloDone => SendServerHelloDoneIs(k, h, c);
    case ReadClientCertificate => ReadClientCertificateIs(k, h, c);
    case VerifyClientCertificate => VerifyClientCertificateIs(k, h, c);
    case ReadClientKeyExchange => ReadClientKeyExchangeIs(k, h, c);
    case ReadClientCertificateVerify => ReadClientCertificateVerifyIs(k, h, c);
    case ReadClientCcs => ReadClientCcsIs(k, h, c);
    case ProcessClientCcs => ProcessClientCcsIs(k, h, c);
    case ReadNextProto => ReadNextProtoIs(k, h, c);
    case ReadChannelId => ReadChannelIdIs(k, h, c);
    case ReadClientFinished => ReadClientFinishedIs(k, h, c);
    case SendServerFinished => SendServerFinishedIs(k, h, c);
    case FinishServerHandshake => FinishServerHandshakeIs(k, h, c);
    case _ => FailedIs(k, h, c);
  }

  lemma FailedIs(k: Conf, h: Hs, c: Choice)
    ensures StepIs(k, h, c, Failed(h))
  {}

  /** Each state of either machine does what its row says. */
  lemma EachStepIs(k: Conf, h: Hs, c: Choice)
    ensures StepIs(k, h, c, Step(k, h, c))
  {
    hide StepIs, ClientStep, ServerStep;
    if k.server { ServerIs(k, h, c); } else { ClientIs(k, h, c); }
  }

  // ------------------------------------------------------ every run

  /** A state that was left, and the outcome of what was asked in it. */
  datatype Visit = Visit(h: Hs, c: Choice)

  /** The states that were left in a run. */
  function Trail(k: Conf, moves: seq<Move>): (vs: seq<Visit>)
    requires Run(k, moves) != []
    decreases |moves|
  {
    if moves == [] then []
    else
      var e, m := Run(k, moves[..|moves| - 1])[0], moves[|moves| - 1];
      Trail(k, moves[..|moves| - 1]) + (if m.Machine? && Step(k, e.h, m.c).hs.state != e.h.state then [Visit(e.h, m.c)] else [])
  }

  /** A move that does not fail does what it should: a state is left, or waits, as its row says; and a
      record is opened under the keys it was sealed with, and is of the type that is waited for. */
  predicate MoveIsRight(k: Conf, e: Endpoint, m: Move)
  {
    && Enabled(e, m)
    && (m.Machine? ==> Step(k, e.h, m.c).wait != Error && StepIs(k, e.h, m.c, Step(k, e.h, m.c)))
    && (m.Open? ==> e.inbox[0].keys == e.h.readKeys && (if e.wait == ReadMessage then e.inbox[0].Record? else e.inbox[0].Ccs?))
  }

  lemma RightUnlessError(k: Conf, e: Endpoint, m: Move)
    requires Enabled(e, m) && Next(k, e, m).wait != Error
    ensures MoveIsRight(k, e, m)
  {
    hide Step, StepIs, Note;
    if m.Machine? { EachStepIs(k, e.h, m.c); }
  }

  /** Against any peer: in a run without an error, every move has done what it should. */
  lemma {:induction false} MovesAreRight(k: Conf, moves: seq<Move>, e: Endpoint, i: nat)
    requires Run(k, moves) == [e] && e.wait != Error && i < |moves|
    ensures Run(k, moves[..i]) != [] && MoveIsRight(k, Run(k, moves[..i])[0], moves[i])
    decreases |moves|
  {
    hide MoveIsRight, Next;
    var short, last := moves[..|moves| - 1], moves[|moves| - 1];
    var t := Run(k, short)[0];
    ErrorStays(k, t, last);
    if i == |moves| - 1 {
      RightUnlessError(k, t, last);
    } else {
      MovesAreRight(k, short, t, i);
      assert short[..i] == moves[..i];
    }
  }

  /** What the states left show of the way so far. */
  predicate OnPath(k: Conf, vs: seq<Visit>, h: Hs)
  {
    && h.state == Nth(k, |vs|)
    && (forall i :: 0 <= i < |vs| ==> vs[i].h.state == Nth(k, i) && vs[i].h.state != Done && GoesOn(k, vs[i].h))
    && (forall i :: 0 <= i < |vs| ==>
        (RowOf(k, vs[i].h).checks ==> !vs[i].c.Fail?) && (RowOf(k, vs[i].h).mayWait ==> !vs[i].c.Retry?))
    && (forall i :: 0 <= i < |vs| && k.server && !k.p.resumed && i > 8 ==> vs[i].h.peerCert == h.peerCert)
  }

  lemma OneMoreVisit(k: Conf, vs: seq<Visit>, h: Hs, c: Choice, r: Stepped)
    requires OnPath(k, vs, h) && Leaves(k, h, c, r) && h.state != Done
    ensures OnPath(k, vs + [Visit(h, c)], r.hs) && r.hs.state != h.state
  {
    hide RowOf, Nth, GoesOn, After, BehindCertificate, Took;
    AfterIs(k, h);
    RowMoves(k, h);
    BehindFirst();
    NthNext(k, |vs|);
    if k.server && !k.p.resumed && |vs| > 8 { NoLongerRead(k, |vs|); }
    var ws := vs + [Visit(h, c)];
    assert forall i :: 0 <= i < |vs| ==> ws[i] == vs[i];
  }

  lemma NthFirst(k: Conf)
    ensures Nth(k, 0) == if k.server then StartAccept else StartConnect
  {}

  lemma NthStep(k: Conf, n: nat, a: State, b: State)
    requires Nth(k, n) == a && After(k, a) == b
    ensures Nth(k, n + 1) == b
  {}

  lemma NthNext(k: Conf, n: nat)
    ensures Nth(k, n + 1) == After(k, Nth(k, n))
  {}

  lemma AfterIs(k: Conf, h: Hs)
    ensures RowOf(k, h).after == After(k, h.state)
  {}

  /** The states behind the one that reads the client's certificate. */
  predicate BehindCertificate(st: State)
  {
    || st.VerifyClientCertificate? || st.ReadClientKeyExchange? || st.ReadClientCertificateVerify? || st.ReadClientCcs?
    || st.ProcessClientCcs? || st.ReadNextProto? || st.ReadChannelId? || st.ReadClientFinished? || st.SendServerFinished?
    || st.FinishServerHandshake? || st.Done?
  }

  lemma {:induction false} NoLongerRead(k: Conf, n: nat)
    requires k.server && !k.p.resumed && n > 8
    ensures BehindCertificate(Nth(k, n))
  {
    hide Nth, After, BehindCertificate;
    if n == 9 {
      FullServerPath(k);
      BehindFirst();
    } else {
      NoLongerRead(k, n - 1);
      NthNext(k, n - 1);
      BehindStays(k, Nth(k, n - 1));
    }
  }

  lemma BehindFirst()
    ensures BehindCertificate(VerifyClientCertificate) && !BehindCertificate(ReadClientCertificate)
  {}

  lemma BehindStays(k: Conf, st: State)
    requires k.server && !k.p.resumed && BehindCertificate(st)
    ensures BehindCertificate(After(k, st))
  {}

  /** A state before one that is not Done is not Done either. */
  lemma {:induction false} NotDoneBefore(k: Conf, n: nat, j: nat)
    requires Nth(k, n) != Done && j <= n
    ensures Nth(k, j) != Done
    decreases n
  {
    hide Nth;
    if j < n {
      NthNext(k, n - 1);
      NotDoneBefore(k, n - 1, j);
    }
  }

  /** Against any peer, and whatever is asked of the outside: the states have been left in the order
      of the path, each once; none was left with a check failed or with something to wait for, and each
      was left with the message that it requires. */
  lemma {:induction false} TrailIsExact(k: Conf, moves: seq<Move>, e: Endpoint)
    requires Run(k, moves) == [e] && e.wait != Error
    ensures OnPath(k, Trail(k, moves), e.h)
    decreases |moves|
  {
    hide OnPath, Next, Step, StepIs;
    if moves == [] {
      NoVisits(k);
    } else {
      var t, m := Run(k, moves[..|moves| - 1])[0], moves[|moves| - 1];
      ErrorStays(k, t, m);
      TrailIsExact(k, moves[..|moves| - 1], t);
      RightUnlessError(k, t, m);
      VisitMore(k, Trail(k, moves[..|moves| - 1]), t, m);
    }
  }

  lemma NoVisits(k: Conf)
    ensures OnPath(k, [], Init(k.server).h)
  {}

  /** A state that is not left has waited. */
  lemma PathMoves(k: Conf, vs: seq<Visit>, h: Hs, c: Choice, r: Stepped)
    requires OnPath(k, vs, h) && StepIs(k, h, c, r) && r.wait != Error && h.state != Done && r.hs.state == h.state
    ensures r.hs == h
  {
    hide RowOf, GoesOn, Took;
    RowMoves(k, h);
  }

  lemma VisitMore(k: Conf, vs: seq<Visit>, e: Endpoint, m: Move)
    requires OnPath(k, vs, e.h) && MoveIsRight(k, e, m) && Next(k, e, m).wait != Error
    ensures OnPath(k, vs + (if m.Machine? && Step(k, e.h, m.c).hs.state != e.h.state then [Visit(e.h, m.c)] else []),
                   Next(k, e, m).h)
  {
    hide OnPath, Step, Leaves, RowOf, Note;
    if m.Machine? {
      var r := Step(k, e.h, m.c);
      if Leaves(k, e.h, m.c, r) {
        OneMoreVisit(k, vs, e.h, m.c, r);
      } else {
        assert vs + [] == vs;
      }
    } else {
      assert vs + [] == vs;
      SameCertificate(k, e, m);
      PathStays(k, vs, e.h, Next(k, e, m).h);
    }
  }

  lemma SameCertificate(k: Conf, e: Endpoint, m: Move)
    requires Enabled(e, m) && !m.Machine?
    ensures var n := Next(k, e, m); n.h.state == e.h.state && n.h.peerCert == e.h.peerCert
  {}

  lemma PathStays(k: Conf, vs: seq<Visit>, h: Hs, r: Hs)
    requires OnPath(k, vs, h) && r.state == h.state && r.peerCert == h.peerCert
    ensures OnPath(k, vs, r)
  {
    hide RowOf, Nth, GoesOn;
  }

  lemma VisitAt(k: Conf, vs: seq<Visit>, h: Hs, n: nat)
    requires OnPath(k, vs, h) && h.state == Done && Nth(k, n) != Done
    ensures n < |vs| && vs[n].h.state == Nth(k, n) && GoesOn(k, vs[n].h)
    ensures (RowOf(k, vs[n].h).checks ==> !vs[n].c.Fail?) && (RowOf(k, vs[n].h).mayWait ==> !vs[n].c.Retry?)
    ensures k.server && !k.p.resumed && n > 8 ==> vs[n].h.peerCert == h.peerCert
  {
    hide RowOf, Nth, GoesOn;
    if |vs| <= n { NotDoneBefore(k, n, |vs|); }
  }

  /** On the way to the end of a new session with a certificate suite, a client has verified the
      server's certificate. */
  lemma ClientVerified(k: Conf, vs: seq<Visit>, h: Hs)
    requires OnPath(k, vs, h) && h.state == Done && !k.server && !k.p.resumed && k.p.certAuth
    ensures exists v :: v in vs && v.h.state == VerifyServerCertificate && v.c.Proceed?
  {
    hide GoesOn, Nth, OnPath;
    FullClientPath(k);
    VisitAt(k, vs, h, 5);
    assert vs[5] in vs;
  }

  /** A server that has a certificate of the client has verified it, and the client's signature. */
  lemma ServerVerified(k: Conf, vs: seq<Visit>, h: Hs)
    requires OnPath(k, vs, h) && h.state == Done && k.server && !k.p.resumed && h.peerCert
    ensures exists v :: v in vs && v.h.state == VerifyClientCertificate && v.c.Proceed?
    ensures exists v :: v in vs && HasSigned(v)
  {
    hide Nth, OnPath, RowOf, GoesOn, HasSigned;
    FullServerPath(k);
    VisitAt(k, vs, h, 9);
    VisitAt(k, vs, h, 11);
    VerifiedAt(k, vs[9]);
    SignedAt(k, vs[11]);
    assert vs[9] in vs && vs[11] in vs;
  }

  /** Against any peer: what an endpoint that is done has verified. */
  lemma DoneHasVerified(k: Conf, moves: seq<Move>, e: Endpoint)
    requires Run(k, moves) == [e] && e.wait != Error && e.h.state == Done && !k.p.resumed
    ensures !k.server && k.p.certAuth ==>
      exists v :: v in Trail(k, moves) && v.h.state == VerifyServerCertificate && v.c.Proceed?
    ensures k.server && e.h.peerCert ==>
      exists v :: v in Trail(k, moves) && v.h.state == VerifyClientCertificate && v.c.Proceed?
    ensures k.server && e.h.peerCert ==> exists v :: v in Trail(k, moves) && HasSigned(v)
  {
    hide Trail, Run, OnPath, HasSigned;
    TrailIsExact(k, moves, e);
    if k.server {
      if e.h.peerCert { ServerVerified(k, Trail(k, moves), e.h); }
    } else {
      if k.p.certAuth { ClientVerified(k, Trail(k, moves), e.h); }
    }
  }

  /** Whatever is made to fail ends the handshake, unless nothing is checked or done in that state, or
      its message has not arrived; */
  lemma FailEnds(k: Conf, moves: seq<Move>, e: Endpoint, i: nat)
    requires Run(k, moves) == [e] && e.wait != Error && i < |moves| && moves[i] == Machine(Fail)
    ensures Run(k, moves[..i]) != []
    ensures var h := Run(k, moves[..i])[0].h; !RowOf(k, h).checks || (!RowOf(k, h).takes.TakesNone? && h.buffer == [])
  {
    hide RowOf, Run, Step, GoesOn;
    MovesAreRight(k, moves, e, i);
  }

  /** and a callback that asks to be called again is waited for, with nothing changed. */
  lemma RetryWaits(k: Conf, moves: seq<Move>, e: Endpoint, i: nat)
    requires Run(k, moves) == [e] && e.wait != Error && i < |moves| && moves[i] == Machine(Retry)
    ensures Run(k, moves[..i]) != []
    ensures var t := Run(k, moves[..i])[0];
      RowOf(k, t.h).mayWait ==> Step(k, t.h, Retry).hs == t.h && Step(k, t.h, Retry).wait != Ok
  {
    hide RowOf, Run, Step, GoesOn;
    MovesAreRight(k, moves, e, i);
  }

  /** A CertificateVerify has been read, and found to be right. */
  predicate HasSigned(v: Visit)
  {
    v.h.state == ReadClientCertificateVerify && IsNext(v.h, CertificateVerify) && !v.c.Fail?
  }

  lemma VerifiedAt(k: Conf, v: Visit)
    requires v.h.state == VerifyClientCertificate && v.h.peerCert
    requires (RowOf(k, v.h).checks ==> !v.c.Fail?) && (RowOf(k, v.h).mayWait ==> !v.c.Retry?)
    ensures v.c.Proceed?
  {}

  lemma SignedAt(k: Conf, v: Visit)
    requires v.h.state == ReadClientCertificateVerify && v.h.peerCert && (RowOf(k, v.h).checks ==> !v.c.Fail?) && GoesOn(k, v.h)
    ensures HasSigned(v)
  {}

  /** Each visit is a move of the run. */
  lemma {:induction false} VisitsAreMoves(k: Conf, moves: seq<Move>, v: Visit)
    requires Run(k, moves) != [] && v in Trail(k, moves)
    ensures exists i :: 0 <= i < |moves| && moves[i] == Machine(v.c) && Run(k, moves[..i]) != [] && Run(k, moves[..i])[0].h == v.h
    decreases |moves|
  {
    hide Next, Step;
    var short, last := moves[..|moves| - 1], moves[|moves| - 1];
    if v in Trail(k, short) {
      VisitsAreMoves(k, short, v);
      var i :| 0 <= i < |short| && short[i] == Machine(v.c) && Run(k, short[..i]) != [] && Run(k, short[..i])[0].h == v.h;
      assert moves[..i] == short[..i] && moves[i] == short[i];
    } else {
      assert moves[|moves| - 1] == Machine(v.c);
    }
  }

  // ------------------------------------------------------ the messages that are taken

  function Kinds(ms: seq<Message>): seq<Kind>
  {
    if ms == [] then [] else Kinds(ms[..|ms| - 1]) + [KindOf(ms[|ms| - 1])]
  }

  /** The kinds of the messages taken on the way. */
  function TakenKinds(k: Conf, vs: seq<Visit>): seq<Kind>
  {
    if vs == [] then []
    else
      var h := vs[|vs| - 1].h;
      TakenKinds(k, vs[..|vs| - 1]) + (if Took(k, h) then [RowOf(k, h).takes.kind] else [])
  }

  lemma TakenThen(k: Conf, vs: seq<Visit>, v: Visit)
    ensures TakenKinds(k, vs + [v]) == TakenKinds(k, vs) + (if Took(k, v.h) then [RowOf(k, v.h).takes.kind] else [])
  {
    assert (vs + [v])[..|vs|] == vs;
  }

  function First(ms: seq<Message>): seq<Message> { if ms == [] then [] else [ms[0]] }

  /** What a move does to the messages consumed: a state that takes one consumes it. */
  lemma MoveTakes(k: Conf, e: Endpoint, m: Move)
    requires EndpointOk(k, e) && MoveIsRight(k, e, m) && Next(k, e, m).wait != Error && e.wait != Error
    ensures var n := Next(k, e, m);
      AllGot(n.h.history) == AllGot(e.h.history)
        + (if m.Machine? && Step(k, e.h, m.c).hs.state != e.h.state && Took(k, e.h) then First(e.h.buffer) else [])
  {
    hide Step, Marks, Made, At, RowOf, GoesOn, Note, Messages;
    if m.Machine? {
      MachineTakes(k, e.h, m.c);
    } else {
      SameHistory(k, e, m);
    }
  }

  lemma SameHistory(k: Conf, e: Endpoint, m: Move)
    requires Enabled(e, m) && !m.Machine?
    ensures AllGot(Next(k, e, m).h.history) == AllGot(e.h.history)
  {
    hide AllGot, Note;
    if m.Open? { NoteGot(k.server, e.h); }
  }

  lemma NoteGot(server: bool, h: Hs)
    ensures AllGot(Note(server, h, GotCcs).history) == AllGot(h.history)
  {
    hide Coherent, Marks, Messages;
    HistoryThen(h.history, GotCcs);
  }

  lemma MachineTakes(k: Conf, h: Hs, c: Choice)
    requires HsOk(k, h, Ok) && StepIs(k, h, c, Step(k, h, c)) && Step(k, h, c).wait != Error
    ensures var r := Step(k, h, c);
      AllGot(r.hs.history) == AllGot(h.history) + (if r.hs.state != h.state && Took(k, h) then First(h.buffer) else [])
  {
    hide Step, HsOk, RowOf, GoesOn, Took, Rank, AllGot;
    MachineOk(k, h, c);
    var r := Step(k, h, c);
    RowMoves(k, h);
    GotAndUnread(k, h, Ok);
    GotAndUnread(k, r.hs, r.wait);
    var taken := if r.hs.state != h.state && Took(k, h) then First(h.buffer) else [];
    assert h.buffer == taken + r.hs.buffer;
    Cancel(AllGot(r.hs.history), AllGot(h.history), taken, r.hs.buffer);
  }

  lemma GotAndUnread(k: Conf, h: Hs, wait: Wait)
    requires HsOk(k, h, wait)
    ensures AllGot(h.history) + h.buffer == MessagesIn(h.received)
  {
    hide Marks, Made, At, Messages, FinishedOk;
  }

  lemma RowMoves(k: Conf, h: Hs)
    ensures h.state != Done ==> RowOf(k, h).after != h.state
    ensures Took(k, h) && GoesOn(k, h) ==> h.buffer != []
  {}

  lemma Cancel(x: seq<Message>, y: seq<Message>, z: seq<Message>, b: seq<Message>)
    ensures x + b == y + (z + b) ==> x == y + z
  {
    if x + b == y + (z + b) {
      assert |x| == |y + z|;
      assert x == (x + b)[..|x|] && y + z == (y + (z + b))[..|x|];
    }
  }

  /** Against any peer: the messages consumed are of the kinds that the states on the way take, and
      nothing else has been consumed. */
  lemma {:induction false} TakenInOrder(k: Conf, moves: seq<Move>, e: Endpoint)
    requires Run(k, moves) == [e] && e.wait != Error
    ensures Kinds(AllGot(e.h.history)) == TakenKinds(k, Trail(k, moves))
    decreases |moves|
  {
    hide Next, Step, MoveIsRight, EndpointOk, Took, RowOf, AllGot, Kinds, TakenKinds;
    if moves == [] {
      NothingTaken(k);
    } else {
      var short, m := moves[..|moves| - 1], moves[|moves| - 1];
      var t := Run(k, short)[0];
      ErrorStays(k, t, m);
      TakenInOrder(k, short, t);
      RightUnlessError(k, t, m);
      RunOk(k, short, t);
      MoveTakes(k, t, m);
      assert AllGot(t.h.history) + [] == AllGot(t.h.history);
      if m.Machine? && Step(k, t.h, m.c).hs.state != t.h.state {
        assert Trail(k, moves) == Trail(k, short) + [Visit(t.h, m.c)];
        TakenThen(k, Trail(k, short), Visit(t.h, m.c));
        if Took(k, t.h) {
          TakesItsKind(k, t, m);
          KindsThen(AllGot(t.h.history), t.h.buffer[0]);
        }
      } else {
        assert Trail(k, moves) == Trail(k, short);
      }
    }
  }

  lemma NothingTaken(k: Conf)
    ensures Kinds(AllGot(Init(k.server).h.history)) == TakenKinds(k, [])
  {}

  lemma KindsThen(ms: seq<Message>, m: Message)
    ensures Kinds(ms + [m]) == Kinds(ms) + [KindOf(m)]
  {
    assert (ms + [m])[..|ms|] == ms;
  }

  lemma TakesItsKind(k: Conf, e: Endpoint, m: Move)
    requires MoveIsRight(k, e, m) && m.Machine? && Step(k, e.h, m.c).hs.state != e.h.state && Took(k, e.h)
    ensures e.h.buffer != [] && KindOf(e.h.buffer[0]) == RowOf(k, e.h).takes.kind
  {
    hide Step, RowOf;
  }
}
