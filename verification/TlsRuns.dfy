/** One endpoint of a TLS 1.0 to 1.2 handshake against an arbitrary peer: what every run keeps,
    and what has happened when the handshake is done. */
module TlsRuns {
  import opened TlsHandshake
  import opened TlsStates

  /** The handshake with what it waits for, and the records that have arrived. */
  datatype Endpoint = Endpoint(h: Hs, wait: Wait, inbox: seq<Item>)

  function Init(server: bool): Endpoint { Endpoint(Start(server), Ok, []) }

  /** ssl_run_handshake in moves: a state of the machine, one record opened, part of the flight
      written, the caller's return to a handshake that had asked for it; and records that arrive. */
  datatype Move = Machine(c: Choice) | Open | Write(n: nat) | Resume | Arrive(items: seq<Item>)

  predicate Enabled(e: Endpoint, m: Move)
  {
    match m
    case Machine(_) => e.wait == Ok && e.h.state != Done
    case Open => (e.wait.ReadMessage? || e.wait.ReadChangeCipherSpec?) && e.inbox != []
    case Write(n) => e.wait == Flush && n <= |e.h.flight|
    case Resume => (e.wait.Async? || e.wait.EarlyReturn?)
    case Arrive(_) => true
  }

  /** Opening a record: the read keys must be those it was sealed with, and it must be of the
      type that is waited for. */
  function OpenRecord(server: bool, e: Endpoint): Endpoint
    requires e.inbox != []
  {
    var item, rest, received := e.inbox[0], e.inbox[1..], e.h.received + [e.inbox[0]];
    if item.keys != e.h.readKeys then Endpoint(e.h, Error, rest)
    else if e.wait == ReadMessage && item.Record? then
      Endpoint(e.h.(buffer := e.h.buffer + item.msgs, received := received), Ok, rest)
    else if e.wait == ReadChangeCipherSpec && item.Ccs? then
      Endpoint(Note(server, e.h, GotCcs).(received := received), Ok, rest)
    else Endpoint(e.h, Error, rest)
  }

  function Next(k: Conf, e: Endpoint, m: Move): Endpoint
    requires Enabled(e, m)
  {
    match m
    case Machine(c) => var s := Step(k, e.h, c); Endpoint(s.hs, s.wait, e.inbox)
    case Open => OpenRecord(k.server, e)
    case Write(n) =>
      var h := e.h.(flight := e.h.flight[n..], written := e.h.written + e.h.flight[..n]);
      Endpoint(h, if n == |e.h.flight| then Ok else Flush, e.inbox)
    case Resume => e.(wait := Ok)
    case Arrive(items) => e.(inbox := e.inbox + items)
  }

  /** The endpoint after a run, with None when a move is not enabled where it is made. */
  function Run(k: Conf, moves: seq<Move>): (e: seq<Endpoint>)
    ensures |e| <= 1
    decreases |moves|
  {
    if moves == [] then [Init(k.server)]
    else
      var e := Run(k, moves[..|moves| - 1]);
      if e != [] && Enabled(e[0], moves[|moves| - 1]) then [Next(k, e[0], moves[|moves| - 1])] else []
  }

  // ------------------------------------------------------ what has happened by each state

  const Mine: seq<Mark> := [MSentCcs, MWriteKeys, MSentFinished]
  const Peers: seq<Mark> := [MGotCcs, MReadKeys, MGotFinished]

  predicate SentFinished(k: Conf, st: State) { At(k, st).sent }

  predicate OnlyFull(k: Conf, st: State) { At(k, st).full }

  /** While the ChangeCipherSpec is awaited, it is not there. */
  function PeerMarks(k: Conf, st: State, wait: Wait): (n: nat)
    ensures n <= 3
  {
    if wait == ReadChangeCipherSpec then 0 else At(k, st).peers
  }

  /** Which of the two Finished messages an endpoint deals with first. */
  predicate MineFirst(k: Conf) { k.server == k.p.resumed }

  /** The first `mine` of the endpoint's own marks and the first `peers` of its peer's. */
  function Made(k: Conf, mine: nat, peers: nat): seq<Mark>
    requires mine <= 3 && peers <= 3
  {
    if MineFirst(k) then Mine[..mine] + Peers[..peers] else Peers[..peers] + Mine[..mine]
  }

  function MyMarks(k: Conf, st: State): nat { if SentFinished(k, st) then 3 else 0 }

  lemma MadeMine(k: Conf, peers: nat)
    requires peers == (if MineFirst(k) then 0 else 3)
    ensures Made(k, 0, peers) + [MSentCcs, MWriteKeys] == Made(k, 2, peers)
    ensures Made(k, 2, peers) + [MSentFinished] == Made(k, 3, peers)
  {}

  lemma MadePeers(k: Conf, mine: nat, i: nat)
    requires mine == (if MineFirst(k) then 3 else 0) && i < 3
    ensures Made(k, mine, i) + [Peers[i]] == Made(k, mine, i + 1)
  {}

  /** What every run keeps, until an error ends it. */
  ghost predicate HsOk(k: Conf, h: Hs, wait: Wait)
  {
    && Coherent(k.server, BooksOf(h))
    && Marks(h.history) == Made(k, MyMarks(k, h.state), PeerMarks(k, h.state, wait))
    && h.writeKeys == (if SentFinished(k, h.state) then 1 else 0)
    && h.readKeys == (if PeerMarks(k, h.state, wait) >= 2 then 1 else 0)
    && At(k, h.state).own && (OnlyFull(k, h.state) ==> !k.p.resumed)
    && (wait == ReadChangeCipherSpec ==> h.state == if k.server then ProcessClientCcs else ProcessServerCcs)
    && (h.state.ProcessServerCcs? || h.state.ProcessClientCcs? ==> wait == Ok || wait == ReadChangeCipherSpec)
  }

  ghost predicate EndpointOk(k: Conf, e: Endpoint)
  {
    e.wait != Error ==> HsOk(k, e.h, e.wait)
  }

  function Rank(k: Conf, st: State): nat { At(k, st).rank }

  /** A state is left for one of lower rank, keeping the invariant; or nothing has changed, and
      the machine waits for a message or for the caller. */
  ghost predicate StepOk(k: Conf, h: Hs, r: Stepped)
  {
    r.wait != Error ==>
      && HsOk(k, r.hs, r.wait)
      && r.hs.received == h.received && r.hs.written == h.written
      && (if (r.wait.ReadMessage? || r.wait.Async?) then r.hs == h else Rank(k, r.hs.state) < Rank(k, h.state))
  }

  /** A step that fails, or that has changed nothing and waits. */
  predicate Halts(h: Hs, r: Stepped)
  {
    || r.wait == Error
    || ((r.wait == ReadMessage || r.wait == Async) && r.hs == h && h.state != ProcessServerCcs && h.state != ProcessClientCcs)
  }

  lemma Halted(k: Conf, h: Hs, r: Stepped)
    requires HsOk(k, h, Ok) && Halts(h, r)
    ensures StepOk(k, h, r)
  {
    hide Coherent, Marks, Made, At;
  }

  /** What every step to another state keeps. */
  ghost predicate Advances(k: Conf, h: Hs, r: Stepped)
  {
    && r.wait != Error && r.wait != ReadMessage && r.wait != Async
    && (Coherent(k.server, BooksOf(h)) ==> Coherent(k.server, BooksOf(r.hs)))
    && r.hs.received == h.received && r.hs.written == h.written
    && At(k, r.hs.state).own && At(k, r.hs.state).rank < At(k, h.state).rank
    && (At(k, r.hs.state).full ==> !k.p.resumed)
  }

  /** A step to another state that leaves no mark. */
  ghost predicate LeavesNoMark(k: Conf, h: Hs, r: Stepped)
  {
    && Advances(k, h, r) && Marks(r.hs.history) == Marks(h.history)
    && r.hs.readKeys == h.readKeys && r.hs.writeKeys == h.writeKeys
    && At(k, r.hs.state).sent == At(k, h.state).sent
    && (r.wait == ReadChangeCipherSpec ==>
        r.hs.state == (if k.server then ProcessClientCcs else ProcessServerCcs) && At(k, h.state).peers == 0)
    && (r.wait != ReadChangeCipherSpec ==>
        At(k, r.hs.state).peers == At(k, h.state).peers && r.hs.state != ProcessServerCcs && r.hs.state != ProcessClientCcs)
  }

  /** What is to be shown of most steps, */
  lemma Quiet(k: Conf, h: Hs, r: Stepped)
    requires HsOk(k, h, Ok) && (Halts(h, r) || LeavesNoMark(k, h, r))
    ensures StepOk(k, h, r)
  {
    hide Coherent, Marks, Made, At;
    if Halts(h, r) { Halted(k, h, r); }
  }

  /** of one that changes the read keys, */
  lemma ChangesKeys(k: Conf, h: Hs, r: Stepped)
    requires HsOk(k, h, Ok) && Advances(k, h, r) && Marks(r.hs.history) == Marks(h.history) + [MReadKeys]
    requires At(k, h.state).peers == 1 && At(k, r.hs.state).peers == 2 && r.wait == Ok
    requires At(k, r.hs.state).sent == At(k, h.state).sent == MineFirst(k)
    requires r.hs.readKeys == h.readKeys + 1 && r.hs.writeKeys == h.writeKeys
    requires r.hs.state != ProcessServerCcs && r.hs.state != ProcessClientCcs
    ensures StepOk(k, h, r)
  {
    hide Coherent, Marks, Made, At, MineFirst;
    var m := MyMarks(k, h.state);
    assert m == MyMarks(k, r.hs.state);
    MadePeers(k, m, 1);
    assert Peers[1] == MReadKeys;
  }

  /** of one that verifies the peer's Finished, */
  lemma Verifies(k: Conf, h: Hs, r: Stepped)
    requires HsOk(k, h, Ok) && Advances(k, h, r) && Marks(r.hs.history) == Marks(h.history) + [MGotFinished]
    requires At(k, h.state).peers == 2 && At(k, r.hs.state).peers == 3 && r.wait == Ok
    requires At(k, r.hs.state).sent == At(k, h.state).sent == MineFirst(k) && SameKeys(h, r.hs)
    requires r.hs.state != ProcessServerCcs && r.hs.state != ProcessClientCcs
    ensures StepOk(k, h, r)
  {
    hide Coherent, Marks, Made, At, MineFirst;
    var m := MyMarks(k, h.state);
    assert m == MyMarks(k, r.hs.state);
    MadePeers(k, m, 2);
    assert Peers[2] == MGotFinished;
  }

  /** and of one that changes the write keys and sends the Finished. */
  lemma Finishes(k: Conf, h: Hs, r: Stepped)
    requires HsOk(k, h, Ok) && Advances(k, h, r)
    requires Marks(r.hs.history) == Marks(h.history) + [MSentCcs, MWriteKeys] + [MSentFinished]
    requires !At(k, h.state).sent && At(k, r.hs.state).sent && r.wait == Flush
    requires At(k, r.hs.state).peers == At(k, h.state).peers == (if MineFirst(k) then 0 else 3)
    requires r.hs.readKeys == h.readKeys && r.hs.writeKeys == h.writeKeys + 1
    requires r.hs.state != ProcessServerCcs && r.hs.state != ProcessClientCcs
    ensures StepOk(k, h, r)
  {
    hide Coherent, Marks, Made, At, MineFirst;
    MadeMine(k, if MineFirst(k) then 0 else 3);
  }

  /** The client's hello, and the server's. */
  lemma ClientHellos(k: Conf, h: Hs, c: Choice)
    requires !k.server && HsOk(k, h, Ok)
    ensures h.state == StartConnect ==> StepOk(k, h, DoStartConnect(k, h, c))
    ensures h.state == EnterEarlyData ==> StepOk(k, h, DoEnterEarlyData(k, h, c))
    ensures h.state == ReadServerHello ==> StepOk(k, h, DoReadServerHello(k, h, c))
  {
    hide At, HsOk, StepOk, KindOf, Coherent, Marks, Messages;
    hide ReadOne, ReadFinished, Add, AddIf, AddCcs, Note, ChangeWriteKeys, SendFinished;
    FullOnly(k, h);
    PlaceStartConnect(k);
    PlaceEnterEarlyData(k);
    PlaceReadServerHello(k);
    PlaceReadServerCertificate(k);
    PlaceReadSessionTicket(k);
    if h.state == StartConnect { Quiet(k, h, DoStartConnect(k, h, c)); }
    if h.state == EnterEarlyData { Quiet(k, h, DoEnterEarlyData(k, h, c)); }
    if h.state == ReadServerHello { Quiet(k, h, DoReadServerHello(k, h, c)); }
  }

  /** The client reads the server's certificate. */
  lemma ClientReadsCertificate(k: Conf, h: Hs, c: Choice)
    requires !k.server && HsOk(k, h, Ok)
    ensures h.state == ReadServerCertificate ==> StepOk(k, h, DoReadServerCertificate(k, h, c))
    ensures h.state == ReadCertificateStatus ==> StepOk(k, h, DoReadCertificateStatus(k, h, c))
    ensures h.state == VerifyServerCertificate ==> StepOk(k, h, DoVerifyServerCertificate(k, h, c))
  {
    hide At, HsOk, StepOk, KindOf, Coherent, Marks, Messages;
    hide ReadOne, ReadFinished, Add, AddIf, AddCcs, Note, ChangeWriteKeys, SendFinished;
    FullOnly(k, h);
    PlaceReadServerCertificate(k);
    PlaceReadCertificateStatus(k);
    PlaceVerifyServerCertificate(k);
    PlaceReadServerKeyExchange(k);
    if h.state == ReadServerCertificate { Quiet(k, h, DoReadServerCertificate(k, h, c)); }
    if h.state == ReadCertificateStatus { Quiet(k, h, DoReadCertificateStatus(k, h, c)); }
    if h.state == VerifyServerCertificate { Quiet(k, h, DoVerifyServerCertificate(k, h, c)); }
  }

  /** The client reads the server's keys. */
  lemma ClientReadsKeys(k: Conf, h: Hs, c: Choice)
    requires !k.server && HsOk(k, h, Ok)
    ensures h.state == ReadServerKeyExchange ==> StepOk(k, h, DoReadServerKeyExchange(k, h, c))
  {
    hide At, HsOk, StepOk, KindOf, Coherent, Marks, Messages;
    hide ReadOne, ReadFinished, Add, AddIf, AddCcs, Note, ChangeWriteKeys, SendFinished;
    FullOnly(k, h);
    PlaceReadServerKeyExchange(k);
    PlaceReadCertificateRequest(k);
    if h.state == ReadServerKeyExchange { Quiet(k, h, DoReadServerKeyExchange(k, h, c)); }
  }

  /** The client reads the rest of the server's flight. */
  lemma ClientReadsRest(k: Conf, h: Hs, c: Choice)
    requires !k.server && HsOk(k, h, Ok)
    ensures h.state == ReadCertificateRequest ==> StepOk(k, h, DoReadCertificateRequest(k, h, c))
    ensures h.state == ReadServerHelloDone ==> StepOk(k, h, DoReadServerHelloDone(k, h, c))
  {
    hide At, HsOk, StepOk, KindOf, Coherent, Marks, Messages;
    hide ReadOne, ReadFinished, Add, AddIf, AddCcs, Note, ChangeWriteKeys, SendFinished;
    FullOnly(k, h);
    PlaceReadCertificateRequest(k);
    PlaceReadServerHelloDone(k);
    PlaceSendClientCertificate(k);
    if h.state == ReadCertificateRequest { Quiet(k, h, DoReadCertificateRequest(k, h, c)); }
    if h.state == ReadServerHelloDone { Quiet(k, h, DoReadServerHelloDone(k, h, c)); }
  }

  /** The client answers. */
  lemma ClientAnswers(k: Conf, h: Hs, c: Choice)
    requires !k.server && HsOk(k, h, Ok)
    ensures h.state == SendClientCertificate ==> StepOk(k, h, DoSendClientCertificate(k, h, c))
    ensures h.state == SendClientKeyExchange ==> StepOk(k, h, DoSendClientKeyExchange(k, h, c))
    ensures h.state == SendClientCertificateVerify ==> StepOk(k, h, DoSendClientCertificateVerify(k, h, c))
  {
    hide At, HsOk, StepOk, KindOf, Coherent, Marks, Messages;
    hide ReadOne, ReadFinished, Add, AddIf, AddCcs, Note, ChangeWriteKeys, SendFinished;
    FullOnly(k, h);
    PlaceSendClientCertificate(k);
    PlaceSendClientKeyExchange(k);
    PlaceSendClientCertificateVerify(k);
    PlaceSendClientFinished(k);
    if h.state == SendClientCertificate { Quiet(k, h, DoSendClientCertificate(k, h, c)); }
    if h.state == SendClientKeyExchange { Quiet(k, h, DoSendClientKeyExchange(k, h, c)); }
    if h.state == SendClientCertificateVerify { Quiet(k, h, DoSendClientCertificateVerify(k, h, c)); }
  }

  /** The client sends its Finished. */
  lemma ClientSendsFinished(k: Conf, h: Hs, c: Choice)
    requires !k.server && HsOk(k, h, Ok)
    ensures h.state == SendClientFinished ==> StepOk(k, h, DoSendClientFinished(k, h, c))
  {
    hide At, HsOk, StepOk, KindOf, Coherent, Marks, Messages;
    hide ReadOne, ReadFinished, Add, AddIf, AddCcs, Note, ChangeWriteKeys, SendFinished;
    FullOnly(k, h);
    PlaceSendClientFinished(k);
    PlaceFinishFlight(k);
    if h.state == SendClientFinished {
      var r := DoSendClientFinished(k, h, c);
      if Halts(h, r) { Halted(k, h, r); } else { Finishes(k, h, r); }
    }
  }

  /** The client waits for the server's Finished. */
  lemma ClientAwaits(k: Conf, h: Hs, c: Choice)
    requires !k.server && HsOk(k, h, Ok)
    ensures h.state == FinishFlight ==> StepOk(k, h, DoFinishFlight(k, h, c))
    ensures h.state == ReadSessionTicket ==> StepOk(k, h, DoReadSessionTicket(k, h, c))
    ensures h.state == FinishClientHandshake ==> StepOk(k, h, DoFinishClientHandshake(k, h, c))
  {
    hide At, HsOk, StepOk, KindOf, Coherent, Marks, Messages;
    hide ReadOne, ReadFinished, Add, AddIf, AddCcs, Note, ChangeWriteKeys, SendFinished;
    FullOnly(k, h);
    PlaceFinishFlight(k);
    PlaceReadSessionTicket(k);
    PlaceFinishClientHandshake(k);
    PlaceProcessServerCcs(k);
    PlaceDone(k);
    if h.state == FinishFlight { Quiet(k, h, DoFinishFlight(k, h, c)); }
    if h.state == ReadSessionTicket { Quiet(k, h, DoReadSessionTicket(k, h, c)); }
    if h.state == FinishClientHandshake { Quiet(k, h, DoFinishClientHandshake(k, h, c)); }
  }

  /** The client changes its read keys. */
  lemma ClientChangesKeys(k: Conf, h: Hs, c: Choice)
    requires !k.server && HsOk(k, h, Ok)
    ensures h.state == ProcessServerCcs ==> StepOk(k, h, DoProcessServerCcs(k, h, c))
  {
    hide At, HsOk, StepOk, KindOf, Coherent, Marks, Messages;
    hide ReadOne, ReadFinished, Add, AddIf, AddCcs, Note, ChangeWriteKeys, SendFinished;
    FullOnly(k, h);
    PlaceProcessServerCcs(k);
    PlaceReadServerFinished(k);
    if h.state == ProcessServerCcs {
      var r := DoProcessServerCcs(k, h, c);
      if Halts(h, r) { Halted(k, h, r); } else { ChangesKeys(k, h, r); }
    }
  }

  /** The client reads the server's Finished. */
  lemma ClientReadsFinished(k: Conf, h: Hs, c: Choice)
    requires !k.server && HsOk(k, h, Ok)
    ensures h.state == ReadServerFinished ==> StepOk(k, h, DoReadServerFinished(k, h, c))
  {
    hide At, HsOk, StepOk, KindOf, Coherent, Marks, Messages;
    hide ReadOne, ReadFinished, Add, AddIf, AddCcs, Note, ChangeWriteKeys, SendFinished;
    FullOnly(k, h);
    PlaceReadServerFinished(k);
    PlaceSendClientFinished(k);
    PlaceFinishClientHandshake(k);
    if h.state == ReadServerFinished {
      var r := DoReadServerFinished(k, h, c);
      if Halts(h, r) { Halted(k, h, r); } else { Verifies(k, h, r); }
    }
  }

  /** The server reads the client's hello. */
  lemma ServerReadsHello(k: Conf, h: Hs, c: Choice)
    requires k.server && HsOk(k, h, Ok)
    ensures h.state == StartAccept ==> StepOk(k, h, DoStartAccept(k, h, c))
    ensures h.state == ReadClientHello ==> StepOk(k, h, DoReadClientHello(k, h, c))
  {
    hide At, HsOk, StepOk, KindOf, Coherent, Marks, Messages;
    hide ReadOne, ReadFinished, Add, AddIf, AddCcs, Note, ChangeWriteKeys, SendFinished;
    FullOnly(k, h);
    PlaceStartAccept(k);
    PlaceReadClientHello(k);
    PlaceSelectCertificate(k);
    if h.state == StartAccept { Quiet(k, h, DoStartAccept(k, h, c)); }
    if h.state == ReadClientHello { Quiet(k, h, DoReadClientHello(k, h, c)); }
  }

  /** The server looks at the client's hello again, and takes it. */
  lemma ServerSelects(k: Conf, h: Hs, c: Choice)
    requires k.server && HsOk(k, h, Ok)
    ensures h.state == SelectCertificate ==> StepOk(k, h, DoSelectCertificate(k, h, c))
    ensures h.state == SelectParameters ==> StepOk(k, h, DoSelectParameters(k, h, c))
  {
    hide At, HsOk, StepOk, KindOf, Coherent, Marks, Messages;
    hide ReadOne, ReadFinished, Add, AddIf, AddCcs, Note, ChangeWriteKeys, SendFinished;
    FullOnly(k, h);
    PlaceSelectCertificate(k);
    PlaceSelectParameters(k);
    PlaceSendServerHello(k);
    if h.buffer != [] { HashAndNext(true, h.(certRequest := Asks(k.p))); }
    if h.state == SelectCertificate { Quiet(k, h, DoSelectCertificate(k, h, c)); }
    if h.state == SelectParameters { Quiet(k, h, DoSelectParameters(k, h, c)); }
  }

  /** The server answers the hello. */
  lemma ServerSends(k: Conf, h: Hs, c: Choice)
    requires k.server && HsOk(k, h, Ok)
    ensures h.state == SendServerHello ==> StepOk(k, h, DoSendServerHello(k, h, c))
    ensures h.state == SendServerCertificate ==> StepOk(k, h, DoSendServerCertificate(k, h, c))
  {
    hide At, HsOk, StepOk, KindOf, Coherent, Marks, Messages;
    hide ReadOne, ReadFinished, Add, AddIf, AddCcs, Note, ChangeWriteKeys, SendFinished;
    FullOnly(k, h);
    PlaceSendServerHello(k);
    PlaceSendServerCertificate(k);
    PlaceSendServerFinished(k);
    PlaceSendServerKeyExchange(k);
    if h.state == SendServerHello { Quiet(k, h, DoSendServerHello(k, h, c)); }
    if h.state == SendServerCertificate { Quiet(k, h, DoSendServerCertificate(k, h, c)); }
  }

  /** The server ends its first flight. */
  lemma ServerSendsRest(k: Conf, h: Hs, c: Choice)
    requires k.server && HsOk(k, h, Ok)
    ensures h.state == SendServerKeyExchange ==> StepOk(k, h, DoSendServerKeyExchange(k, h, c))
    ensures h.state == SendServerHelloDone ==> StepOk(k, h, DoSendServerHelloDone(k, h, c))
  {
    hide At, HsOk, StepOk, KindOf, Coherent, Marks, Messages;
    hide ReadOne, ReadFinished, Add, AddIf, AddCcs, Note, ChangeWriteKeys, SendFinished;
    FullOnly(k, h);
    PlaceSendServerKeyExchange(k);
    PlaceSendServerHelloDone(k);
    PlaceReadClientCertificate(k);
    if h.state == SendServerKeyExchange { Quiet(k, h, DoSendServerKeyExchange(k, h, c)); }
    if h.state == SendServerHelloDone { Quiet(k, h, DoSendServerHelloDone(k, h, c)); }
  }

  /** The server reads the client's certificate. */
  lemma ServerReadsCertificate(k: Conf, h: Hs, c: Choice)
    requires k.server && HsOk(k, h, Ok)
    ensures h.state == ReadClientCertificate ==> StepOk(k, h, DoReadClientCertificate(k, h, c))
    ensures h.state == VerifyClientCertificate ==> StepOk(k, h, DoVerifyClientCertificate(k, h, c))
  {
    hide At, HsOk, StepOk, KindOf, Coherent, Marks, Messages;
    hide ReadOne, ReadFinished, Add, AddIf, AddCcs, Note, ChangeWriteKeys, SendFinished;
    FullOnly(k, h);
    PlaceReadClientCertificate(k);
    PlaceVerifyClientCertificate(k);
    PlaceReadClientKeyExchange(k);
    if h.buffer != [] { HashAndNext(true, h); }
    if h.state == ReadClientCertificate { Quiet(k, h, DoReadClientCertificate(k, h, c)); }
    if h.state == VerifyClientCertificate { Quiet(k, h, DoVerifyClientCertificate(k, h, c)); }
  }

  /** The server reads the keys. */
  lemma ServerReadsKeys(k: Conf, h: Hs, c: Choice)
    requires k.server && HsOk(k, h, Ok)
    ensures h.state == ReadClientKeyExchange ==> StepOk(k, h, DoReadClientKeyExchange(k, h, c))
  {
    hide At, HsOk, StepOk, KindOf, Coherent, Marks, Messages;
    hide ReadOne, ReadFinished, Add, AddIf, AddCcs, Note, ChangeWriteKeys, SendFinished;
    FullOnly(k, h);
    PlaceReadClientKeyExchange(k);
    PlaceReadClientCertificateVerify(k);
    if h.buffer != [] { HashAndNext(true, h); }
    if h.state == ReadClientKeyExchange { Quiet(k, h, DoReadClientKeyExchange(k, h, c)); }
  }

  /** The server reads the client's signature. */
  lemma ServerReadsVerify(k: Conf, h: Hs, c: Choice)
    requires k.server && HsOk(k, h, Ok)
    ensures h.state == ReadClientCertificateVerify ==> StepOk(k, h, DoReadClientCertificateVerify(k, h, c))
    ensures h.state == ReadClientCcs ==> StepOk(k, h, DoReadClientCcs(k, h, c))
  {
    hide At, HsOk, StepOk, KindOf, Coherent, Marks, Messages;
    hide ReadOne, ReadFinished, Add, AddIf, AddCcs, Note, ChangeWriteKeys, SendFinished;
    FullOnly(k, h);
    PlaceReadClientCertificateVerify(k);
    PlaceReadClientCcs(k);
    PlaceProcessClientCcs(k);
    if h.buffer != [] { HashAndNext(true, h); }
    if h.state == ReadClientCertificateVerify { Quiet(k, h, DoReadClientCertificateVerify(k, h, c)); }
    if h.state == ReadClientCcs { Quiet(k, h, DoReadClientCcs(k, h, c)); }
  }

  /** The server changes its read keys. */
  lemma ServerChangesKeys(k: Conf, h: Hs, c: Choice)
    requires k.server && HsOk(k, h, Ok)
    ensures h.state == ProcessClientCcs ==> StepOk(k, h, DoProcessClientCcs(k, h, c))
  {
    hide At, HsOk, StepOk, KindOf, Coherent, Marks, Messages;
    hide ReadOne, ReadFinished, Add, AddIf, AddCcs, Note, ChangeWriteKeys, SendFinished;
    FullOnly(k, h);
    PlaceProcessClientCcs(k);
    PlaceReadNextProto(k);
    if h.state == ProcessClientCcs {
      var r := DoProcessClientCcs(k, h, c);
      if Halts(h, r) { Halted(k, h, r); } else { ChangesKeys(k, h, r); }
    }
  }

  /** The server reads what is before the client's Finished. */
  lemma ServerReadsOn(k: Conf, h: Hs, c: Choice)
    requires k.server && HsOk(k, h, Ok)
    ensures h.state == ReadNextProto ==> StepOk(k, h, DoReadNextProto(k, h, c))
  {
    hide At, HsOk, StepOk, KindOf, Coherent, Marks, Messages;
    hide ReadOne, ReadFinished, Add, AddIf, AddCcs, Note, ChangeWriteKeys, SendFinished;
    FullOnly(k, h);
    PlaceReadNextProto(k);
    PlaceReadChannelId(k);
    if h.state == ReadNextProto { Quiet(k, h, DoReadNextProto(k, h, c)); }
  }

  /** The server reads the client's channel ID. */
  lemma ServerReadsChannelId(k: Conf, h: Hs, c: Choice)
    requires k.server && HsOk(k, h, Ok)
    ensures h.state == ReadChannelId ==> StepOk(k, h, DoReadChannelId(k, h, c))
  {
    hide At, HsOk, StepOk, KindOf, Coherent, Marks, Messages;
    hide ReadOne, ReadFinished, Add, AddIf, AddCcs, Note, ChangeWriteKeys, SendFinished;
    FullOnly(k, h);
    PlaceReadChannelId(k);
    PlaceReadClientFinished(k);
    if h.buffer != [] { HashAndNext(true, h); }
    if h.state == ReadChannelId { Quiet(k, h, DoReadChannelId(k, h, c)); }
  }

  /** The server reads the client's Finished. */
  lemma ServerReadsFinished(k: Conf, h: Hs, c: Choice)
    requires k.server && HsOk(k, h, Ok)
    ensures h.state == ReadClientFinished ==> StepOk(k, h, DoReadClientFinished(k, h, c))
  {
    hide At, HsOk, StepOk, KindOf, Coherent, Marks, Messages;
    hide ReadOne, ReadFinished, Add, AddIf, AddCcs, Note, ChangeWriteKeys, SendFinished;
    FullOnly(k, h);
    PlaceReadClientFinished(k);
    PlaceSendServerFinished(k);
    PlaceFinishServerHandshake(k);
    if h.state == ReadClientFinished {
      var r := DoReadClientFinished(k, h, c);
      if Halts(h, r) { Halted(k, h, r); } else { Verifies(k, h, r); }
    }
  }

  /** The server sends its Finished. */
  lemma ServerSendsFinished(k: Conf, h: Hs, c: Choice)
    requires k.server && HsOk(k, h, Ok)
    ensures h.state == SendServerFinished ==> StepOk(k, h, DoSendServerFinished(k, h, c))
  {
    hide At, HsOk, StepOk, KindOf, Coherent, Marks, Messages;
    hide ReadOne, ReadFinished, Add, AddIf, AddCcs, Note, ChangeWriteKeys, SendFinished;
    FullOnly(k, h);
    PlaceSendServerFinished(k);
    PlaceReadClientCcs(k);
    PlaceFinishServerHandshake(k);
    if h.state == SendServerFinished {
      var r := DoSendServerFinished(k, h, c);
      if Halts(h, r) { Halted(k, h, r); } else { Finishes(k, h, r); }
    }
  }

  /** The server is done. */
  lemma ServerEnds(k: Conf, h: Hs, c: Choice)
    requires k.server && HsOk(k, h, Ok)
    ensures h.state == FinishServerHandshake ==> StepOk(k, h, DoFinishServerHandshake(k, h, c))
  {
    hide At, HsOk, StepOk, KindOf, Coherent, Marks, Messages;
    hide ReadOne, ReadFinished, Add, AddIf, AddCcs, Note, ChangeWriteKeys, SendFinished;
    FullOnly(k, h);
    PlaceFinishServerHandshake(k);
    PlaceDone(k);
    if h.state == FinishServerHandshake { Quiet(k, h, DoFinishServerHandshake(k, h, c)); }
  }

  /** A state of the other machine, or Done, is an error. */
  lemma ForeignToServer(k: Conf, h: Hs, c: Choice)
    requires k.server
    requires h.state.StartConnect? || h.state.EnterEarlyData? || h.state.ReadServerHello? ||
      h.state.ReadServerCertificate? || h.state.ReadCertificateStatus? ||
      h.state.VerifyServerCertificate? || h.state.ReadServerKeyExchange? ||
      h.state.ReadCertificateRequest? || h.state.ReadServerHelloDone? || h.state.SendClientCertificate?
      || h.state.SendClientKeyExchange? || h.state.SendClientCertificateVerify? ||
      h.state.SendClientFinished? || h.state.FinishFlight? || h.state.ReadSessionTicket? ||
      h.state.ProcessServerCcs? || h.state.ReadServerFinished? || h.state.FinishClientHandshake? ||
      h.state.Done?
    ensures Step(k, h, c).wait == Error
  {
    hide KindOf, ReadOne, ReadFinished, Add, AddIf, Note, ChangeWriteKeys, SendFinished, ChangeReadKeys;
  }

  lemma ForeignToClient(k: Conf, h: Hs, c: Choice)
    requires !k.server
    requires h.state.StartAccept? || h.state.ReadClientHello? || h.state.SelectCertificate? ||
      h.state.SelectParameters? || h.state.SendServerHello? || h.state.SendServerCertificate? ||
      h.state.SendServerKeyExchange? || h.state.SendServerHelloDone? || h.state.ReadClientCertificate? ||
      h.state.VerifyClientCertificate? || h.state.ReadClientKeyExchange? ||
      h.state.ReadClientCertificateVerify? || h.state.ReadClientCcs? || h.state.ProcessClientCcs? ||
      h.state.ReadNextProto? || h.state.ReadChannelId? || h.state.ReadClientFinished? ||
      h.state.SendServerFinished? || h.state.FinishServerHandshake? || h.state.Done?
    ensures Step(k, h, c).wait == Error
  {
    hide KindOf, ReadOne, ReadFinished, Add, AddIf, Note, ChangeWriteKeys, SendFinished, ChangeReadKeys;
  }

  lemma ServerOk(k: Conf, h: Hs, c: Choice)
    requires k.server && HsOk(k, h, Ok)
    ensures StepOk(k, h, Step(k, h, c))
  {
    hide HsOk, StepOk, ClientStep;
    hide DoStartAccept, DoReadClientHello, DoSelectCertificate, DoSelectParameters, DoSendServerHello,
      DoSendServerCertificate, DoSendServerKeyExchange, DoSendServerHelloDone, DoReadClientCertificate,
      DoVerifyClientCertificate, DoReadClientKeyExchange, DoReadClientCertificateVerify, DoReadClientCcs,
      DoProcessClientCcs, DoReadNextProto, DoReadChannelId, DoReadClientFinished, DoSendServerFinished,
      DoFinishServerHandshake;
    match h.state
    case StartAccept => ServerReadsHello(k, h, c);
    case ReadClientHello => ServerReadsHello(k, h, c);
    case SelectCertificate => ServerSelects(k, h, c);
    case SelectParameters => ServerSelects(k, h, c);
    case SendServerHello => ServerSends(k, h, c);
    case SendServerCertificate => ServerSends(k, h, c);
    case SendServerKeyExchange => ServerSendsRest(k, h, c);
    case SendServerHelloDone => ServerSendsRest(k, h, c);
    case ReadClientCertificate => ServerReadsCertificate(k, h, c);
    case VerifyClientCertificate => ServerReadsCertificate(k, h, c);
    case ReadClientKeyExchange => ServerReadsKeys(k, h, c);
    case ReadClientCertificateVerify => ServerReadsVerify(k, h, c);
    case ReadClientCcs => ServerReadsVerify(k, h, c);
    case ProcessClientCcs => ServerChangesKeys(k, h, c);
    case ReadNextProto => ServerReadsOn(k, h, c);
    case ReadChannelId => ServerReadsChannelId(k, h, c);
    case ReadClientFinished => ServerReadsFinished(k, h, c);
    case SendServerFinished => ServerSendsFinished(k, h, c);
    case FinishServerHandshake => ServerEnds(k, h, c);
    case _ =>
      ForeignToServer(k, h, c);
      Halted(k, h, Step(k, h, c));
  }

  lemma ClientOk(k: Conf, h: Hs, c: Choice)
    requires !k.server && HsOk(k, h, Ok)
    ensures StepOk(k, h, Step(k, h, c))
  {
    hide HsOk, StepOk, ServerStep;
    hide DoStartConnect, DoEnterEarlyData, DoReadServerHello, DoReadServerCertificate, DoReadCertificateStatus,
      DoVerifyServerCertificate, DoReadServerKeyExchange, DoReadCertificateRequest, DoReadServerHelloDone,
      DoSendClientCertificate, DoSendClientKeyExchange, DoSendClientCertificateVerify, DoSendClientFinished,
      DoFinishFlight, DoReadSessionTicket, DoFinishClientHandshake, DoProcessServerCcs, DoReadServerFinished;
    match h.state
    case StartConnect => ClientHellos(k, h, c);
    case EnterEarlyData => ClientHellos(k, h, c);
    case ReadServerHello => ClientHellos(k, h, c);
    case ReadServerCertificate => ClientReadsCertificate(k, h, c);
    case ReadCertificateStatus => ClientReadsCertificate(k, h, c);
    case VerifyServerCertificate => ClientReadsCertificate(k, h, c);
    case ReadServerKeyExchange => ClientReadsKeys(k, h, c);
    case ReadCertificateRequest => ClientReadsRest(k, h, c);
    case ReadServerHelloDone => ClientReadsRest(k, h, c);
    case SendClientCertificate => ClientAnswers(k, h, c);
    case SendClientKeyExchange => ClientAnswers(k, h, c);
    case SendClientCertificateVerify => ClientAnswers(k, h, c);
    case SendClientFinished => ClientSendsFinished(k, h, c);
    case FinishFlight => ClientAwaits(k, h, c);
    case ReadSessionTicket => ClientAwaits(k, h, c);
    case ProcessServerCcs => ClientChangesKeys(k, h, c);
    case ReadServerFinished => ClientReadsFinished(k, h, c);
    case FinishClientHandshake => ClientAwaits(k, h, c);
    case _ =>
      ForeignToClient(k, h, c);
      Halted(k, h, Step(k, h, c));
  }

  /** One state of either machine. */
  lemma MachineOk(k: Conf, h: Hs, c: Choice)
    requires HsOk(k, h, Ok)
    ensures StepOk(k, h, Step(k, h, c))
  {
    hide HsOk, StepOk, Step;
    if k.server { ServerOk(k, h, c); } else { ClientOk(k, h, c); }
  }

  lemma FullOnly(k: Conf, h: Hs)
    requires HsOk(k, h, Ok)
    ensures At(k, h.state).full ==> !k.p.resumed
  {
    hide At;
  }

  // ------------------------------------------------------ every run

  lemma MoveOk(k: Conf, e: Endpoint, m: Move)
    requires EndpointOk(k, e) && Enabled(e, m)
    ensures EndpointOk(k, Next(k, e, m))
  {
    hide Step, Coherent, Marks, Made, Note;
    if m.Machine? {
      MachineOk(k, e.h, m.c);
    } else if m.Open? {
      OpenOk(k, e);
    } else if m.Write? {
      assert (e.h.written + e.h.flight[..m.n]) + e.h.flight[m.n..] == e.h.written + e.h.flight;
    }
  }

  lemma OpenOk(k: Conf, e: Endpoint)
    requires EndpointOk(k, e) && Enabled(e, Open)
    ensures EndpointOk(k, Next(k, e, Open))
  {
    hide HsOk, Note;
    if e.wait == ReadChangeCipherSpec { OpenCcsOk(k, e); } else { OpenMessagesOk(k, e); }
  }

  lemma OpenMessagesOk(k: Conf, e: Endpoint)
    requires e.wait == ReadMessage && EndpointOk(k, e) && Enabled(e, Open)
    ensures EndpointOk(k, Next(k, e, Open))
  {
    hide Coherent, Marks, Made, Note, At;
    var n := Next(k, e, Open);
    if n.wait != Error { ReadIsCoherent(k.server, BooksOf(e.h), BooksOf(n.h), e.inbox[0]); }
  }

  lemma OpenCcsOk(k: Conf, e: Endpoint)
    requires e.wait == ReadChangeCipherSpec && EndpointOk(k, e) && Enabled(e, Open)
    ensures EndpointOk(k, Next(k, e, Open))
  {
    hide Coherent, Marks, Made, Note;
    var n := Next(k, e, Open);
    if n.wait != Error {
      var a := Note(k.server, e.h, GotCcs);
      MadePeers(k, if MineFirst(k) then 3 else 0, 0);
      CcsIsCoherent(k.server, BooksOf(a), BooksOf(n.h), e.inbox[0].keys);
      assert n.h == a.(received := e.h.received + [e.inbox[0]]) && Peers[0] == MGotCcs;
    }
  }

  lemma {:induction false} RunOk(k: Conf, moves: seq<Move>, e: Endpoint)
    requires Run(k, moves) == [e]
    ensures EndpointOk(k, e)
    decreases |moves|
  {
    hide EndpointOk, Enabled, Next;
    if moves == [] {
      InitOk(k);
    } else {
      var t := Run(k, moves[..|moves| - 1])[0];
      RunOk(k, moves[..|moves| - 1], t);
      MoveOk(k, t, moves[|moves| - 1]);
    }
  }

  lemma InitOk(k: Conf)
    ensures EndpointOk(k, Init(k.server))
  {}

  /** The records that arrive in a run. */
  function Arrived(moves: seq<Move>): seq<Item>
  {
    if moves == [] then []
    else Arrived(moves[..|moves| - 1]) + (if moves[|moves| - 1].Arrive? then moves[|moves| - 1].items else [])
  }

  /** The records that the transport takes in a run. */
  function Taken(k: Conf, moves: seq<Move>): seq<Item>
    requires Run(k, moves) != []
    decreases |moves|
  {
    if moves == [] then []
    else
      var e, m := Run(k, moves[..|moves| - 1])[0], moves[|moves| - 1];
      Taken(k, moves[..|moves| - 1]) + (if m.Write? then e.h.flight[..m.n] else [])
  }

  /** What a move does to the records that have passed. */
  lemma MovePasses(k: Conf, e: Endpoint, m: Move)
    requires EndpointOk(k, e) && Enabled(e, m) && Next(k, e, m).wait != Error
    ensures var n := Next(k, e, m);
      && n.h.received + n.inbox == e.h.received + e.inbox + (if m.Arrive? then m.items else [])
      && n.h.written == e.h.written + (if m.Write? then e.h.flight[..m.n] else [])
  {
    hide Step, HsOk, Note;
    if m.Machine? {
      MachineOk(k, e.h, m.c);
    } else if m.Open? {
      assert e.inbox == [e.inbox[0]] + e.inbox[1..];
    }
  }

  lemma {:induction false} RecordsPass(k: Conf, moves: seq<Move>, e: Endpoint)
    requires Run(k, moves) == [e] && e.wait != Error
    ensures e.h.received + e.inbox == Arrived(moves) && e.h.written == Taken(k, moves)
    decreases |moves|
  {
    hide EndpointOk, Next;
    if moves == [] {
      NothingPassed(k);
    } else {
      var t := Run(k, moves[..|moves| - 1])[0];
      ErrorStays(k, t, moves[|moves| - 1]);
      RecordsPass(k, moves[..|moves| - 1], t);
      RunOk(k, moves[..|moves| - 1], t);
      MovePasses(k, t, moves[|moves| - 1]);
    }
  }

  lemma NothingPassed(k: Conf)
    ensures Init(k.server).h.received + Init(k.server).inbox == [] && Init(k.server).h.written == []
  {}

  lemma ErrorStays(k: Conf, e: Endpoint, m: Move)
    requires Enabled(e, m) && Next(k, e, m).wait != Error
    ensures e.wait != Error
  {}

  /** `t` is made of the messages of `a` and those of `b`, each once, and each in their order. */
  predicate Interleaves(t: seq<Message>, a: seq<Message>, b: seq<Message>)
  {
    if t == [] then a == [] && b == []
    else
      var last, before := t[|t| - 1], t[..|t| - 1];
      || (a != [] && a[|a| - 1] == last && Interleaves(before, a[..|a| - 1], b))
      || (b != [] && b[|b| - 1] == last && Interleaves(before, a, b[..|b| - 1]))
  }

  lemma InterleavesThen(t: seq<Message>, a: seq<Message>, b: seq<Message>, m: Message)
    requires Interleaves(t, a, b)
    ensures Interleaves(t + [m], a + [m], b) && Interleaves(t + [m], a, b + [m])
  {
    assert (t + [m])[..|t|] == t && (a + [m])[..|a|] == a && (b + [m])[..|b|] == b;
  }

  lemma {:induction false} HistoryInterleaves(history: seq<Event>)
    ensures Interleaves(Messages(history), AllSent(history), AllGot(history))
  {
    hide Interleaves, Messages, AllSent, AllGot;
    if history == [] {
      NothingInterleaves();
    } else {
      var before, e := history[..|history| - 1], history[|history| - 1];
      HistoryInterleaves(before);
      if e.Sent? || e.Got? { InterleavesThen(Messages(before), AllSent(before), AllGot(before), e.msg); }
      AllThen(before, e);
      assert history == before + [e];
    }
  }

  lemma NothingInterleaves()
    ensures Interleaves(Messages([]), AllSent([]), AllGot([]))
  {}

  lemma AllThen(before: seq<Event>, e: Event)
    ensures Messages(before + [e]) == if e.Sent? || e.Got? then Messages(before) + [e.msg] else Messages(before)
    ensures AllSent(before + [e]) == if e.Sent? then AllSent(before) + [e.msg] else AllSent(before)
    ensures AllGot(before + [e]) == if e.Got? then AllGot(before) + [e.msg] else AllGot(before)
  {
    HistoryThen(before, e);
  }

  /** Against any peer and however often callbacks ask to be called again: what was sent is the
      messages in the records that were written or are in the flight; what was consumed, with what
      is unread, is the messages in the records that were opened, which are the first of those that
      arrived. The transcript is these messages, each once, in the order in which they were sent
      and consumed; and every Finished that was sent or accepted is over the transcript as it then
      stood. */
  lemma TranscriptIsExact(k: Conf, moves: seq<Move>, e: Endpoint)
    requires Run(k, moves) == [e] && e.wait != Error
    ensures AllSent(e.h.history) == MessagesIn(Taken(k, moves) + e.h.flight)
    ensures AllGot(e.h.history) + e.h.buffer == MessagesIn(e.h.received) && e.h.received + e.inbox == Arrived(moves)
    ensures e.h.transcript == Messages(e.h.history)
    ensures Interleaves(e.h.transcript, AllSent(e.h.history), AllGot(e.h.history))
    ensures forall i :: 0 <= i < |e.h.history| ==> FinishedOk(k.server, e.h.history[i], e.h.history[..i])
  {
    hide Marks, Made, At, Interleaves, Messages, MessagesIn, FinishedOk;
    RunOk(k, moves, e);
    RecordsPass(k, moves, e);
    HistoryInterleaves(e.h.history);
  }

  /** A handshake that is done has sent its own Finished and verified its peer's, once each; each
      direction's keys have changed once, before that direction's Finished and after its
      ChangeCipherSpec. The server's Finished is first just if the session is resumed. */
  lemma DoneMeans(k: Conf, moves: seq<Move>, e: Endpoint)
    requires Run(k, moves) == [e] && e.wait != Error && e.h.state == Done
    ensures Marks(e.h.history) == if k.server == k.p.resumed then Mine + Peers else Peers + Mine
    ensures e.h.readKeys == 1 && e.h.writeKeys == 1
  {
    hide Run, HsOk, Marks;
    RunOk(k, moves, e);
    AtDone(k, e.h, e.wait);
  }

  lemma AtDone(k: Conf, h: Hs, wait: Wait)
    requires HsOk(k, h, wait) && h.state == Done
    ensures Marks(h.history) == if k.server == k.p.resumed then Mine + Peers else Peers + Mine
    ensures h.readKeys == 1 && h.writeKeys == 1
  {
    hide Marks, Coherent;
    assert Mine[..3] == Mine && Peers[..3] == Peers;
  }
}
