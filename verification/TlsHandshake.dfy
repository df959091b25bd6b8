/** TLS 1.0 to 1.2 handshakes (RFC 5246, section 7.3; ssl/handshake.cc): messages, what an endpoint
    remembers, and the operations out of which the state machines are made. */
module TlsHandshake {
  datatype Kind =
    | ClientHello | ServerHello | Certificate | CertificateStatus | ServerKeyExchange | CertificateRequest
    | ServerHelloDone | ClientKeyExchange | CertificateVerify | NextProto | ChannelId | NewSessionTicket | FinishedKind

  /** A handshake message; its body is opaque, but that an empty certificate chain has body 0. The
      body of a Finished message shows who computed it and over what transcript. */
  datatype Message = Message(kind: Kind, body: nat) | Finished(byServer: bool, over: seq<Message>)

  function KindOf(m: Message): Kind
  {
    if m.Finished? then FinishedKind else m.kind
  }

  /** A record, and the number of key changes before it was sealed. */
  datatype Item = Record(msgs: seq<Message>, keys: nat) | Ccs(keys: nat)

  datatype Event = Sent(msg: Message) | Got(msg: Message) | SentCcs | GotCcs | ChangedWriteKeys | ChangedReadKeys

  datatype State =
    // the client's
    | StartConnect | EnterEarlyData | ReadServerHello | ReadServerCertificate | ReadCertificateStatus
    | VerifyServerCertificate | ReadServerKeyExchange | ReadCertificateRequest | ReadServerHelloDone
    | SendClientCertificate | SendClientKeyExchange | SendClientCertificateVerify | SendClientFinished
    | FinishFlight | ReadSessionTicket | ProcessServerCcs | ReadServerFinished | FinishClientHandshake
    // the server's
    | StartAccept | ReadClientHello | SelectCertificate | SelectParameters | SendServerHello
    | SendServerCertificate | SendServerKeyExchange | SendServerHelloDone | ReadClientCertificate
    | VerifyClientCertificate | ReadClientKeyExchange | ReadClientCertificateVerify | ReadClientCcs
    | ProcessClientCcs | ReadNextProto | ReadChannelId | ReadClientFinished | SendServerFinished
    | FinishServerHandshake
    | Done

  /** What configuration and negotiation have settled. */
  datatype Params = Params(
    resumed: bool,          // an old session is used
    certAuth: bool,         // the cipher suite authenticates the server by certificate
    status: bool,           // CertificateStatus has been negotiated
    keRequired: bool,       // the cipher suite requires ServerKeyExchange
    keAllowed: bool,        // the cipher suite can have one
    keSent: bool,           // the server has parameters to send in one
    askCert: bool,          // the server wants a client certificate
    needCert: bool,         // and refuses an empty one
    hasCert: bool,          // the client has one
    nextProto: bool, channelId: bool, ticket: bool, falseStart: bool)

  /** The same, as one of the two sides sees it. */
  datatype Conf = Conf(server: bool, p: Params)

  /** Why the state machine returns. Async stands for the callbacks that ask to be called again. */
  datatype Wait = Ok | Error | Flush | ReadMessage | ReadChangeCipherSpec | Async | EarlyReturn

  /** The outcome of what a step asks the outside, and the body of the message it may send. */
  datatype Choice = Proceed(body: nat) | Retry | Fail

  /** SSL_HANDSHAKE and the parts of SSL that it uses. `buffer` holds the whole messages that have
      been read but not consumed, `flight` what is added but not flushed; `received` and `written`
      are the records that have been opened and those that the transport has taken. */
  datatype Hs = Hs(
    state: State, transcript: seq<Message>, buffer: seq<Message>, flight: seq<Item>,
    received: seq<Item>, written: seq<Item>,
    readKeys: nat, writeKeys: nat, certRequest: bool, peerCert: bool, history: seq<Event>)

  function Start(server: bool): Hs
  {
    Hs(if server then StartAccept else StartConnect, [], [], [], [], [], 0, 0, false, false, [])
  }

  // ------------------------------------------------------ what the history shows

  /** The messages in some records. */
  function MessagesIn(items: seq<Item>): seq<Message>
  {
    if items == [] then []
    else MessagesIn(items[..|items| - 1]) + (if items[|items| - 1].Record? then items[|items| - 1].msgs else [])
  }

  lemma MessagesThen(a: seq<Item>, item: Item)
    ensures MessagesIn(a + [item]) == MessagesIn(a) + (if item.Record? then item.msgs else [])
  {
    assert (a + [item])[..|a|] == a;
  }

  /** The messages that the history says were sent, */
  function SentOf(e: Event): seq<Message> { if e.Sent? then [e.msg] else [] }

  function AllSent(history: seq<Event>): seq<Message>
  {
    if history == [] then [] else AllSent(history[..|history| - 1]) + SentOf(history[|history| - 1])
  }

  /** those it says were consumed, */
  function GotOf(e: Event): seq<Message> { if e.Got? then [e.msg] else [] }

  function AllGot(history: seq<Event>): seq<Message>
  {
    if history == [] then [] else AllGot(history[..|history| - 1]) + GotOf(history[|history| - 1])
  }

  /** and both, in the order in which that happened. */
  function Messages(history: seq<Event>): seq<Message>
  {
    if history == [] then []
    else Messages(history[..|history| - 1]) + SentOf(history[|history| - 1]) + GotOf(history[|history| - 1])
  }

  datatype Mark = MSentCcs | MWriteKeys | MSentFinished | MGotCcs | MReadKeys | MGotFinished

  function MarksOf(e: Event): seq<Mark>
  {
    match e
    case Sent(m) => if m.Finished? then [MSentFinished] else []
    case Got(m) => if m.Finished? then [MGotFinished] else []
    case SentCcs => [MSentCcs]
    case GotCcs => [MGotCcs]
    case ChangedWriteKeys => [MWriteKeys]
    case ChangedReadKeys => [MReadKeys]
  }

  /** The Finished messages, the ChangeCipherSpecs and the changes of keys, in order. */
  function Marks(history: seq<Event>): seq<Mark>
  {
    if history == [] then [] else Marks(history[..|history| - 1]) + MarksOf(history[|history| - 1])
  }

  lemma HistoryThen(history: seq<Event>, e: Event)
    ensures Messages(history + [e]) == Messages(history) + SentOf(e) + GotOf(e)
    ensures AllSent(history + [e]) == AllSent(history) + SentOf(e) && AllGot(history + [e]) == AllGot(history) + GotOf(e)
    ensures Marks(history + [e]) == Marks(history) + MarksOf(e)
  {
    assert (history + [e])[..|history|] == history;
  }

  /** A Finished message covers what was sent and consumed before it, and shows its sender. */
  predicate FinishedOk(server: bool, e: Event, before: seq<Event>)
  {
    && (e.Sent? && e.msg.Finished? ==> e.msg == Finished(server, Messages(before)))
    && (e.Got? && e.msg.Finished? ==> e.msg == Finished(!server, Messages(before)))
  }

  /** What an endpoint has put down: its transcript and its history; and what can be seen of it:
      the records it has made, what it holds unread, and the records it has opened. */
  datatype Books = Books(transcript: seq<Message>, history: seq<Event>, made: seq<Item>, buffer: seq<Message>, received: seq<Item>)

  function BooksOf(h: Hs): Books { Books(h.transcript, h.history, h.written + h.flight, h.buffer, h.received) }

  /** The messages sent are those of the records made, and the ones consumed are those of the
      records opened, but for what is still unread. The transcript is all of these, each once and
      in the order in which they were sent and consumed; and each Finished, of either side, was
      computed over the transcript as it stood. */
  ghost predicate Coherent(server: bool, b: Books)
  {
    && AllSent(b.history) == MessagesIn(b.made)
    && AllGot(b.history) + b.buffer == MessagesIn(b.received)
    && b.transcript == Messages(b.history)
    && forall i :: 0 <= i < |b.history| ==> FinishedOk(server, b.history[i], b.history[..i])
  }

  /** One more event, which is a message just if the transcript has got it. */
  lemma CoherentThen(server: bool, b: Books, b': Books, e: Event)
    requires Coherent(server, b) && b'.history == b.history + [e] && FinishedOk(server, e, b.history)
    requires b'.transcript == b.transcript + SentOf(e) + GotOf(e)
    requires MessagesIn(b'.made) == MessagesIn(b.made) + SentOf(e)
    requires b'.received == b.received && b.buffer == GotOf(e) + b'.buffer
    ensures Coherent(server, b')
  {
    hide FinishedOk, MessagesIn;
    HistoryThen(b.history, e);
    assert AllGot(b.history) + (GotOf(e) + b'.buffer) == (AllGot(b.history) + GotOf(e)) + b'.buffer;
    forall i | 0 <= i < |b'.history| ensures FinishedOk(server, b'.history[i], b'.history[..i]) {
      if i < |b.history| {
        assert b'.history[..i] == b.history[..i];
      } else {
        assert b'.history[..i] == b.history;
      }
    }
  }

  // ------------------------------------------------------ operations

  /** Keys, the records that have passed and the certificate request stay as they are. */
  predicate SameKeys(a: Hs, b: Hs)
  {
    && a.readKeys == b.readKeys && a.writeKeys == b.writeKeys && a.certRequest == b.certRequest
    && a.received == b.received && a.written == b.written
  }

  /** ssl_hash_message: the transcript gets the message. */
  function Hash(h: Hs, m: Message): Hs { h.(transcript := h.transcript + [m]) }

  /** The first half of ssl3_add_message: the message is sealed and joins the flight. */
  function Seal(h: Hs, m: Message): Hs
  {
    h.(flight := h.flight + [Record([m], h.writeKeys)], history := h.history + [Sent(m)])
  }

  /** next_message: the first message of the buffer is consumed. */
  function NextMessage(h: Hs): Hs
    requires h.buffer != []
  {
    h.(buffer := h.buffer[1..], history := h.history + [Got(h.buffer[0])])
  }

  /** ssl_add_message_cbb: the message is sealed, and then hashed. */
  function Add(server: bool, h: Hs, m: Message): (r: Hs)
    ensures SameKeys(h, r) && r.state == h.state && r.buffer == h.buffer && r.peerCert == h.peerCert
    ensures r.flight == h.flight + [Record([m], h.writeKeys)] && r.transcript == h.transcript + [m]
    ensures Coherent(server, BooksOf(h)) && (m.Finished? ==> m == Finished(server, h.transcript)) ==> Coherent(server, BooksOf(r))
    ensures Marks(r.history) == Marks(h.history) + (if m.Finished? then [MSentFinished] else [])
  {
    var r := Hash(Seal(h, m), m);
    assert Coherent(server, BooksOf(h)) && (m.Finished? ==> m == Finished(server, h.transcript)) ==> Coherent(server, BooksOf(r)) by {
      if Coherent(server, BooksOf(h)) && (m.Finished? ==> m == Finished(server, h.transcript)) { AddIsCoherent(server, h, m); }
    }
    HistoryThen(h.history, Sent(m));
    r
  }

  lemma AddIsCoherent(server: bool, h: Hs, m: Message)
    requires Coherent(server, BooksOf(h)) && (m.Finished? ==> m == Finished(server, h.transcript))
    ensures Coherent(server, BooksOf(Hash(Seal(h, m), m)))
  {
    hide MessagesIn, Messages;
    var item := Record([m], h.writeKeys);
    assert h.written + (h.flight + [item]) == (h.written + h.flight) + [item];
    MessagesThen(h.written + h.flight, item);
    CoherentThen(server, BooksOf(h), BooksOf(Hash(Seal(h, m), m)), Sent(m));
  }

  /** Adds a message only under a condition. */
  function AddIf(server: bool, h: Hs, cond: bool, kind: Kind, body: nat): (r: Hs)
    ensures SameKeys(h, r)
    ensures Coherent(server, BooksOf(h)) ==> Coherent(server, BooksOf(r))
    ensures Marks(r.history) == Marks(h.history)
  {
    if cond then Add(server, h, Message(kind, body)) else h
  }

  /** Hashing the message that was read and then consuming it: only both together keep the books
      in order, and only once each. */
  lemma HashAndNext(server: bool, h: Hs)
    requires h.buffer != []
    ensures h.buffer[0].Finished? ==> KindOf(h.buffer[0]) == FinishedKind
    ensures var r := NextMessage(Hash(h, h.buffer[0]));
      && SameKeys(h, r) && r.buffer == h.buffer[1..] && r.transcript == h.transcript + [h.buffer[0]]
      && Marks(r.history) == Marks(h.history) + (if h.buffer[0].Finished? then [MGotFinished] else [])
      && (Coherent(server, BooksOf(h)) && (h.buffer[0].Finished? ==> h.buffer[0] == Finished(!server, h.transcript))
          ==> Coherent(server, BooksOf(r)))
  {
    hide Coherent, Messages, Marks;
    HistoryThen(h.history, Got(h.buffer[0]));
    if Coherent(server, BooksOf(h)) && (h.buffer[0].Finished? ==> h.buffer[0] == Finished(!server, h.transcript)) {
      NextIsCoherent(server, h);
    }
  }

  /** Sealing, hashing or consuming alone puts them out of order. */
  lemma NotByHalves(server: bool, h: Hs, m: Message)
    requires Coherent(server, BooksOf(h))
    ensures !Coherent(server, BooksOf(Seal(h, m))) && !Coherent(server, BooksOf(Hash(h, m)))
    ensures h.buffer != [] ==> !Coherent(server, BooksOf(NextMessage(h)))
  {
    HistoryThen(h.history, Sent(m));
    if h.buffer != [] { HistoryThen(h.history, Got(h.buffer[0])); }
  }

  lemma NextIsCoherent(server: bool, h: Hs)
    requires h.buffer != [] && Coherent(server, BooksOf(h))
    requires h.buffer[0].Finished? ==> h.buffer[0] == Finished(!server, h.transcript)
    ensures Coherent(server, BooksOf(NextMessage(Hash(h, h.buffer[0]))))
  {
    hide MessagesIn, Messages;
    CoherentThen(server, BooksOf(h), BooksOf(NextMessage(Hash(h, h.buffer[0]))), Got(h.buffer[0]));
  }

  /** An event that is no message. */
  function Note(server: bool, h: Hs, e: Event): (r: Hs)
    requires !e.Sent? && !e.Got?
    ensures r == h.(history := r.history)
    ensures SameKeys(h, r)
    ensures Coherent(server, BooksOf(h)) ==> Coherent(server, BooksOf(r))
    ensures Marks(r.history) == Marks(h.history) + MarksOf(e)
  {
    var r := h.(history := h.history + [e]);
    assert Coherent(server, BooksOf(h)) ==> Coherent(server, BooksOf(r)) by {
      if Coherent(server, BooksOf(h)) { CoherentThen(server, BooksOf(h), BooksOf(r), e); }
    }
    HistoryThen(h.history, e);
    r
  }

  /** Opening a record of messages. */
  lemma ReadIsCoherent(server: bool, b: Books, b': Books, item: Item)
    requires Coherent(server, b) && item.Record?
    requires b' == b.(buffer := b.buffer + item.msgs, received := b.received + [item])
    ensures Coherent(server, b')
  {
    hide Messages, FinishedOk;
    MessagesThen(b.received, item);
  }

  /** A ChangeCipherSpec is a record without messages. */
  lemma CcsIsCoherent(server: bool, b: Books, b': Books, keys: nat)
    requires Coherent(server, b) && (b' == b.(made := b.made + [Ccs(keys)]) || b' == b.(received := b.received + [Ccs(keys)]))
    ensures Coherent(server, b')
  {
    hide Messages, FinishedOk;
    MessagesThen(b.made, Ccs(keys));
    MessagesThen(b.received, Ccs(keys));
  }

  /** ssl3_add_change_cipher_spec. */
  function AddCcs(server: bool, h: Hs): (r: Hs)
    ensures SameKeys(h, r)
    ensures Coherent(server, BooksOf(h)) ==> Coherent(server, BooksOf(r))
    ensures Marks(r.history) == Marks(h.history) + [MSentCcs]
  {
    var a := Note(server, h, SentCcs);
    var r := a.(flight := h.flight + [Ccs(h.writeKeys)]);
    assert Coherent(server, BooksOf(h)) ==> Coherent(server, BooksOf(r)) by {
      hide Coherent, Messages, Marks, Note;
      assert h.written + (h.flight + [Ccs(h.writeKeys)]) == (h.written + h.flight) + [Ccs(h.writeKeys)];
      if Coherent(server, BooksOf(h)) { CcsIsCoherent(server, BooksOf(a), BooksOf(r), h.writeKeys); }
    }
    r
  }

  /** add_change_cipher_spec and tls1_change_cipher_state for writing. */
  function ChangeWriteKeys(server: bool, h: Hs): (r: Hs)
    ensures SameKeys(h, r.(writeKeys := h.writeKeys)) && r.writeKeys == h.writeKeys + 1
    ensures Coherent(server, BooksOf(h)) ==> Coherent(server, BooksOf(r))
    ensures Marks(r.history) == Marks(h.history) + [MSentCcs, MWriteKeys]
  {
    Note(server, AddCcs(server, h), ChangedWriteKeys).(writeKeys := h.writeKeys + 1)
  }

  /** ssl_send_finished: the Finished covers the transcript as it is. */
  function SendFinished(server: bool, h: Hs): (r: Hs)
    ensures SameKeys(h, r)
    ensures Coherent(server, BooksOf(h)) ==> Coherent(server, BooksOf(r))
    ensures Marks(r.history) == Marks(h.history) + [MSentFinished]
  {
    Add(server, h, Finished(server, h.transcript))
  }

  // ------------------------------------------------------ steps

  datatype Stepped = Stepped(hs: Hs, wait: Wait)

  /** After ssl_hs_error nothing is done any more; what the state then holds is not modelled. */
  function Failed(h: Hs): Stepped { Stepped(h, Error) }

  function GoTo(h: Hs, st: State): Stepped { Stepped(h.(state := st), Ok) }

  /** What most states that read do: ssl_check_message_type, ssl_hash_message, then what the
      message says (which may be refused), and next_message. */
  function ReadOne(server: bool, h: Hs, kind: Kind, c: Choice, next: State): (r: Stepped)
    requires kind != FinishedKind
    ensures (r.wait == Ok || r.wait == Error || r.wait == ReadMessage) && (r.wait == ReadMessage ==> r.hs == h)
    ensures r.wait == Ok ==> r.hs.state == next && SameKeys(h, r.hs) && Marks(r.hs.history) == Marks(h.history)
    ensures r.wait == Ok && Coherent(server, BooksOf(h)) ==> Coherent(server, BooksOf(r.hs))
  {
    if h.buffer == [] then Stepped(h, ReadMessage)
    else if KindOf(h.buffer[0]) != kind then Failed(h)
    else
      var a := Hash(h, h.buffer[0]);
      HashAndNext(server, h);
      if c.Fail? then Failed(a) else GoTo(NextMessage(a), next)
  }

  /** ssl_get_finished, and then the next state: what is expected is computed before the message
      is hashed, and compared afterwards. */
  function ReadFinished(server: bool, h: Hs, next: State): (r: Stepped)
    ensures (r.wait == Ok || r.wait == Error || r.wait == ReadMessage) && (r.wait == ReadMessage ==> r.hs == h)
    ensures r.wait == Ok <==> h.buffer != [] && h.buffer[0] == Finished(!server, h.transcript)
    ensures r.wait == ReadMessage <==> h.buffer == []
    ensures r.wait == Ok ==> r.hs.state == next && SameKeys(h, r.hs) && Marks(r.hs.history) == Marks(h.history) + [MGotFinished]
    ensures r.wait == Ok && Coherent(server, BooksOf(h)) ==> Coherent(server, BooksOf(r.hs))
  {
    if h.buffer == [] then Stepped(h, ReadMessage)
    else if KindOf(h.buffer[0]) != FinishedKind then Failed(h)
    else
      var expected := Finished(!server, h.transcript);
      var a := Hash(h, h.buffer[0]);
      HashAndNext(server, h);
      if h.buffer[0] != expected then Failed(a) else GoTo(NextMessage(a), next)
  }

  /** tls1_change_cipher_state for reading: refused while unconsumed messages are left. */
  function ChangeReadKeys(server: bool, h: Hs, c: Choice, next: State): Stepped
  {
    if h.buffer != [] || c.Fail? then Failed(h)
    else GoTo(Note(server, h, ChangedReadKeys).(readKeys := h.readKeys + 1), next)
  }

  function BodyOf(c: Choice): nat { if c.Proceed? then c.body else 0 }

  // ------------------------------------------------------ the client's states

  function DoStartConnect(k: Conf, h: Hs, c: Choice): Stepped
  {
    if c.Fail? then Failed(h)
    else Stepped(AddIf(false, h, true, ClientHello, BodyOf(c)).(state := EnterEarlyData), Flush)
  }

  function DoEnterEarlyData(k: Conf, h: Hs, c: Choice): Stepped
  {
    GoTo(h, ReadServerHello)
  }

  function DoReadServerHello(k: Conf, h: Hs, c: Choice): Stepped
  {
    ReadOne(false, h, ServerHello, c, if k.p.resumed then ReadSessionTicket else ReadServerCertificate)
  }

  function DoReadServerCertificate(k: Conf, h: Hs, c: Choice): Stepped
  {
    if !k.p.certAuth then GoTo(h, ReadCertificateStatus) else ReadOne(false, h, Certificate, c, ReadCertificateStatus)
  }

  function DoReadCertificateStatus(k: Conf, h: Hs, c: Choice): Stepped
  {
    if !k.p.status then GoTo(h, VerifyServerCertificate)
    else if h.buffer != [] && KindOf(h.buffer[0]) != CertificateStatus then GoTo(h, VerifyServerCertificate)
    else ReadOne(false, h, CertificateStatus, c, VerifyServerCertificate)
  }

  function DoVerifyServerCertificate(k: Conf, h: Hs, c: Choice): Stepped
  {
    if !k.p.certAuth then GoTo(h, ReadServerKeyExchange)
    else if c.Fail? then Failed(h)
    else if c.Retry? then Stepped(h, Async)
    else GoTo(h, ReadServerKeyExchange)
  }

  function DoReadServerKeyExchange(k: Conf, h: Hs, c: Choice): Stepped
  {
    if h.buffer != [] && KindOf(h.buffer[0]) != ServerKeyExchange then
      if k.p.keRequired then Failed(h) else GoTo(h, ReadCertificateRequest)
    else if h.buffer != [] && !k.p.keAllowed then Failed(Hash(h, h.buffer[0]))
    else ReadOne(false, h, ServerKeyExchange, c, ReadCertificateRequest)
  }

  function DoReadCertificateRequest(k: Conf, h: Hs, c: Choice): Stepped
  {
    if !k.p.certAuth then GoTo(h, ReadServerHelloDone)
    else if h.buffer != [] && KindOf(h.buffer[0]) == ServerHelloDone then GoTo(h, ReadServerHelloDone)
    else
      var r := ReadOne(false, h, CertificateRequest, c, ReadServerHelloDone);
      if r.wait == Ok then r.(hs := r.hs.(certRequest := true)) else r
  }

  function DoReadServerHelloDone(k: Conf, h: Hs, c: Choice): Stepped
  {
    ReadOne(false, h, ServerHelloDone, c, SendClientCertificate)
  }

  /** The client's certificate chain, which is empty when it has none. */
  function CertificateBody(k: Conf, c: Choice): (body: nat)
    ensures body == 0 <==> !k.p.hasCert
  {
    if k.p.hasCert then BodyOf(c) + 1 else 0
  }

  function DoSendClientCertificate(k: Conf, h: Hs, c: Choice): Stepped
  {
    if !h.certRequest then GoTo(h, SendClientKeyExchange)
    else if c.Fail? then Failed(h)
    else if c.Retry? then Stepped(h, Async)
    else GoTo(AddIf(false, h, true, Certificate, CertificateBody(k, c)), SendClientKeyExchange)
  }

  function DoSendClientKeyExchange(k: Conf, h: Hs, c: Choice): Stepped
  {
    if c.Fail? then Failed(h) else GoTo(AddIf(false, h, true, ClientKeyExchange, BodyOf(c)), SendClientCertificateVerify)
  }

  function DoSendClientCertificateVerify(k: Conf, h: Hs, c: Choice): Stepped
  {
    if !h.certRequest || !k.p.hasCert then GoTo(h, SendClientFinished)
    else if c.Fail? then Failed(h)
    else if c.Retry? then Stepped(h, Async)
    else GoTo(AddIf(false, h, true, CertificateVerify, BodyOf(c)), SendClientFinished)
  }

  function DoSendClientFinished(k: Conf, h: Hs, c: Choice): Stepped
  {
    if c.Fail? then Failed(h)
    else if k.p.channelId && c.Retry? then Stepped(h, Async)
    else
      var a := AddIf(false, ChangeWriteKeys(false, h), k.p.nextProto, NextProto, BodyOf(c));
      Stepped(SendFinished(false, AddIf(false, a, k.p.channelId, ChannelId, BodyOf(c))).(state := FinishFlight), Flush)
  }

  function DoFinishFlight(k: Conf, h: Hs, c: Choice): Stepped
  {
    if k.p.resumed then GoTo(h, FinishClientHandshake)
    else if c.Fail? then Failed(h)
    else Stepped(h.(state := ReadSessionTicket), if k.p.falseStart then EarlyReturn else Ok)
  }

  function DoReadSessionTicket(k: Conf, h: Hs, c: Choice): Stepped
  {
    if !k.p.ticket then Stepped(h.(state := ProcessServerCcs), ReadChangeCipherSpec)
    else
      var r := ReadOne(false, h, NewSessionTicket, c, ProcessServerCcs);
      if r.wait == Ok then r.(wait := ReadChangeCipherSpec) else r
  }

  function DoProcessServerCcs(k: Conf, h: Hs, c: Choice): Stepped
  {
    ChangeReadKeys(false, h, c, ReadServerFinished)
  }

  function DoReadServerFinished(k: Conf, h: Hs, c: Choice): Stepped
  {
    ReadFinished(false, h, if k.p.resumed then SendClientFinished else FinishClientHandshake)
  }

  function DoFinishClientHandshake(k: Conf, h: Hs, c: Choice): Stepped
  {
    if c.Fail? then Failed(h) else GoTo(h, Done)
  }

  // ------------------------------------------------------ the server's states

  function DoStartAccept(k: Conf, h: Hs, c: Choice): Stepped
  {
    GoTo(h, ReadClientHello)
  }

  function DoReadClientHello(k: Conf, h: Hs, c: Choice): Stepped
  {
    if h.buffer == [] then Stepped(h, ReadMessage)
    else if KindOf(h.buffer[0]) != ClientHello || c.Fail? then Failed(h)
    else if c.Retry? then Stepped(h, Async)
    else GoTo(h, SelectCertificate)
  }

  function DoSelectCertificate(k: Conf, h: Hs, c: Choice): Stepped
  {
    if h.buffer == [] then Stepped(h, ReadMessage)
    else if c.Fail? then Failed(h)
    else if c.Retry? then Stepped(h, Async)
    else GoTo(h, SelectParameters)
  }

  function DoSelectParameters(k: Conf, h: Hs, c: Choice): Stepped
  {
    if h.buffer == [] then Stepped(h, ReadMessage)
    else if KindOf(h.buffer[0]) != ClientHello || c.Fail? then Failed(h)
    else if c.Retry? then Stepped(h, Async)
    else
      var a := h.(certRequest := !k.p.resumed && k.p.askCert && k.p.certAuth);
      GoTo(NextMessage(Hash(a, h.buffer[0])), SendServerHello)
  }

  function DoSendServerHello(k: Conf, h: Hs, c: Choice): Stepped
  {
    if c.Fail? then Failed(h)
    else GoTo(AddIf(true, h, true, ServerHello, BodyOf(c)), if k.p.resumed then SendServerFinished else SendServerCertificate)
  }

  function DoSendServerCertificate(k: Conf, h: Hs, c: Choice): Stepped
  {
    if c.Fail? then Failed(h)
    else
      var a := AddIf(true, h, k.p.certAuth, Certificate, BodyOf(c));
      GoTo(AddIf(true, a, k.p.certAuth && k.p.status, CertificateStatus, BodyOf(c)), SendServerKeyExchange)
  }

  function DoSendServerKeyExchange(k: Conf, h: Hs, c: Choice): Stepped
  {
    if !k.p.keSent then GoTo(h, SendServerHelloDone)
    else if c.Fail? then Failed(h)
    else if k.p.certAuth && c.Retry? then Stepped(h, Async)
    else GoTo(AddIf(true, h, true, ServerKeyExchange, BodyOf(c)), SendServerHelloDone)
  }

  function DoSendServerHelloDone(k: Conf, h: Hs, c: Choice): Stepped
  {
    if c.Fail? then Failed(h)
    else
      var a := AddIf(true, h, h.certRequest, CertificateRequest, BodyOf(c));
      Stepped(AddIf(true, a, true, ServerHelloDone, 0).(state := ReadClientCertificate), Flush)
  }

  function DoReadClientCertificate(k: Conf, h: Hs, c: Choice): Stepped
  {
    if !h.certRequest then GoTo(h, VerifyClientCertificate)
    else if h.buffer == [] then Stepped(h, ReadMessage)
    else if KindOf(h.buffer[0]) != Certificate then Failed(h)
    else
      var a, isEmpty := Hash(h, h.buffer[0]), h.buffer[0] == Message(Certificate, 0);
      if c.Fail? || (isEmpty && k.p.needCert) then Failed(a)
      else GoTo(NextMessage(a.(peerCert := !isEmpty)), VerifyClientCertificate)
  }

  function DoVerifyClientCertificate(k: Conf, h: Hs, c: Choice): Stepped
  {
    if h.peerCert && c.Fail? then Failed(h)
    else if h.peerCert && c.Retry? then Stepped(h, Async)
    else GoTo(h, ReadClientKeyExchange)
  }

  /** Decrypting with the private key may have to be tried again, before the message is hashed. */
  function DoReadClientKeyExchange(k: Conf, h: Hs, c: Choice): Stepped
  {
    if h.buffer == [] then Stepped(h, ReadMessage)
    else if KindOf(h.buffer[0]) != ClientKeyExchange || c.Fail? then Failed(h)
    else if c.Retry? then Stepped(h, Async)
    else GoTo(NextMessage(Hash(h, h.buffer[0])), ReadClientCertificateVerify)
  }

  /** The signature is over the transcript before this message, which is hashed after the check. */
  function DoReadClientCertificateVerify(k: Conf, h: Hs, c: Choice): Stepped
  {
    if !h.peerCert then GoTo(h, ReadClientCcs)
    else if h.buffer == [] then Stepped(h, ReadMessage)
    else if KindOf(h.buffer[0]) != CertificateVerify || c.Fail? then Failed(h)
    else GoTo(NextMessage(Hash(h, h.buffer[0])), ReadClientCcs)
  }

  function DoReadClientCcs(k: Conf, h: Hs, c: Choice): Stepped
  {
    Stepped(h.(state := ProcessClientCcs), ReadChangeCipherSpec)
  }

  function DoProcessClientCcs(k: Conf, h: Hs, c: Choice): Stepped
  {
    ChangeReadKeys(true, h, c, ReadNextProto)
  }

  function DoReadNextProto(k: Conf, h: Hs, c: Choice): Stepped
  {
    if !k.p.nextProto then GoTo(h, ReadChannelId) else ReadOne(true, h, NextProto, c, ReadChannelId)
  }

  function DoReadChannelId(k: Conf, h: Hs, c: Choice): Stepped
  {
    if !k.p.channelId then GoTo(h, ReadClientFinished)
    else if h.buffer == [] then Stepped(h, ReadMessage)
    else if KindOf(h.buffer[0]) != ChannelId || c.Fail? then Failed(h)     // tls1_verify_channel_id
    else GoTo(NextMessage(Hash(h, h.buffer[0])), ReadClientFinished)
  }

  function DoReadClientFinished(k: Conf, h: Hs, c: Choice): Stepped
  {
    var r := ReadFinished(true, h, if k.p.resumed then FinishServerHandshake else SendServerFinished);
    if r.wait == Ok && c.Fail? then Failed(h) else r
  }

  function DoSendServerFinished(k: Conf, h: Hs, c: Choice): Stepped
  {
    if c.Fail? then Failed(h)
    else
      var a := SendFinished(true, ChangeWriteKeys(true, AddIf(true, h, k.p.ticket, NewSessionTicket, BodyOf(c))));
      Stepped(a.(state := if k.p.resumed then ReadClientCcs else FinishServerHandshake), Flush)
  }

  function DoFinishServerHandshake(k: Conf, h: Hs, c: Choice): Stepped
  {
    if c.Fail? then Failed(h) else GoTo(h, Done)
  }

  /** One round of the loop of ssl_client_handshake. */
  function ClientStep(k: Conf, h: Hs, c: Choice): Stepped
  {
    match h.state
    case StartConnect => DoStartConnect(k, h, c)
    case EnterEarlyData => DoEnterEarlyData(k, h, c)
    case ReadServerHello => DoReadServerHello(k, h, c)
    case ReadServerCertificate => DoReadServerCertificate(k, h, c)
    case ReadCertificateStatus => DoReadCertificateStatus(k, h, c)
    case VerifyServerCertificate => DoVerifyServerCertificate(k, h, c)
    case ReadServerKeyExchange => DoReadServerKeyExchange(k, h, c)
    case ReadCertificateRequest => DoReadCertificateRequest(k, h, c)
    case ReadServerHelloDone => DoReadServerHelloDone(k, h, c)
    case SendClientCertificate => DoSendClientCertificate(k, h, c)
    case SendClientKeyExchange => DoSendClientKeyExchange(k, h, c)
    case SendClientCertificateVerify => DoSendClientCertificateVerify(k, h, c)
    case SendClientFinished => DoSendClientFinished(k, h, c)
    case FinishFlight => DoFinishFlight(k, h, c)
    case ReadSessionTicket => DoReadSessionTicket(k, h, c)
    case ProcessServerCcs => DoProcessServerCcs(k, h, c)
    case ReadServerFinished => DoReadServerFinished(k, h, c)
    case FinishClientHandshake => DoFinishClientHandshake(k, h, c)
    case _ => Failed(h)
  }

  /** One round of the loop of ssl_server_handshake. */
  function ServerStep(k: Conf, h: Hs, c: Choice): Stepped
  {
    match h.state
    case StartAccept => DoStartAccept(k, h, c)
    case ReadClientHello => DoReadClientHello(k, h, c)
    case SelectCertificate => DoSelectCertificate(k, h, c)
    case SelectParameters => DoSelectParameters(k, h, c)
    case SendServerHello => DoSendServerHello(k, h, c)
    case SendServerCertificate => DoSendServerCertificate(k, h, c)
    case SendServerKeyExchange => DoSendServerKeyExchange(k, h, c)
    case SendServerHelloDone => DoSendServerHelloDone(k, h, c)
    case ReadClientCertificate => DoReadClientCertificate(k, h, c)
    case VerifyClientCertificate => DoVerifyClientCertificate(k, h, c)
    case ReadClientKeyExchange => DoReadClientKeyExchange(k, h, c)
    case ReadClientCertificateVerify => DoReadClientCertificateVerify(k, h, c)
    case ReadClientCcs => DoReadClientCcs(k, h, c)
    case ProcessClientCcs => DoProcessClientCcs(k, h, c)
    case ReadNextProto => DoReadNextProto(k, h, c)
    case ReadChannelId => DoReadChannelId(k, h, c)
    case ReadClientFinished => DoReadClientFinished(k, h, c)
    case SendServerFinished => DoSendServerFinished(k, h, c)
    case FinishServerHandshake => DoFinishServerHandshake(k, h, c)
    case _ => Failed(h)
  }

  /** ssl->do_handshake, one state. */
  function Step(k: Conf, h: Hs, c: Choice): Stepped
  {
    if k.server then ServerStep(k, h, c) else ClientStep(k, h, c)
  }
}
