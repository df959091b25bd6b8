/** The loops that drive a TLS handshake (ssl_run_handshake in ssl/handshake.cc, and the loops of
    ssl_client_handshake and ssl_server_handshake): they end, and keep what every run keeps. */
module TlsConnection {
  import opened TlsHandshake
  import opened TlsStates
  import opened TlsRuns
  import opened TlsTrail

  class Connection {
    const k: Conf
    var hs: Hs
    var wait: Wait
    var inbox: seq<Item>      // records that have arrived
    var wire: seq<Item>       // records that the transport has taken
    ghost var trail: seq<Visit>     // the states that have been left

    ghost predicate Valid()
      reads this
    {
      && EndpointOk(k, Endpoint(hs, wait, inbox)) && (wait != Error ==> wire == hs.written && OnPath(k, trail, hs))
      && (wait == Async || wait == EarlyReturn ==> hs.state != Done)
    }

    constructor (k: Conf)
      ensures Valid() && this.k == k && inbox == [] && wire == []
    {
      this.k, hs, wait, inbox, wire, trail := k, Start(k.server), Ok, [], [], [];
      InitOk(k);
    }

    /** ssl_client_handshake and ssl_server_handshake: states are run until one has to wait. */
    method DoHandshake() returns (w: Wait)
      requires HsOk(k, hs, Ok) && OnPath(k, trail, hs)
      modifies this`hs, this`trail
      ensures w != Error ==> OnPath(k, trail, hs)
      ensures w == Error || (HsOk(k, hs, w) && hs.written == old(hs).written && hs.received == old(hs).received)
      ensures w == Ok ==> hs.state == Done
      ensures w == Async || w == EarlyReturn ==> hs.state != Done
      ensures w != Error ==> Rank(k, hs.state) <= Rank(k, old(hs).state)
      ensures w != Error && w != Ok && Rank(k, hs.state) == Rank(k, old(hs).state) ==> w == ReadMessage || w == Async
    {
      hide HsOk, Step, Rank, OnPath, RowOf, GoesOn, StepIs;
      while hs.state != Done
        invariant HsOk(k, hs, Ok) && Rank(k, hs.state) <= Rank(k, old(hs).state)
        invariant hs.written == old(hs).written && hs.received == old(hs).received && OnPath(k, trail, hs)
        decreases Rank(k, hs.state)
      {
        var c: Choice := *;
        MachineOk(k, hs, c);
        var r := Step(k, hs, c);
        if r.wait != Error { trail := Further(k, trail, hs, c, r); }
        PausedIsNotDone(k, hs, c);
        hs := r.hs;
        if r.wait != Ok {
          return r.wait;
        }
      }
      return Ok;
    }

    /** What is still to be done before the loop of ssl_run_handshake returns. */
    ghost function Work(): nat
      reads this
    {
      Rank(k, hs.state) + |inbox|
    }

    ghost function WaitWork(): nat
      reads this
    {
      match wait
      case Ok => 3
      case Flush => 2
      case ReadMessage => 1
      case ReadChangeCipherSpec => 1
      case _ => 0
    }

    /** What arrived is opened in order, and what is written stays written. */
    twostate predicate InOrder()
      reads this
    {
      && |inbox| <= |old(inbox)| && inbox == old(inbox)[|old(inbox)| - |inbox|..]
      && |old(wire)| <= |wire| && wire[..|old(wire)|] == old(wire)
      && (wait != Error ==> hs.received + inbox == old(hs).received + old(inbox))
    }

    predicate Reading() reads this { wait == ReadMessage || wait == ReadChangeCipherSpec }

    /** What ssl_run_handshake returns before the handshake is done, and why. */
    ghost predicate Outcome(ret: int, early: bool, earlyReturn: bool)
      reads this
    {
      && early == earlyReturn && ret == (if early then 1 else -1)
      && (wait == Error
          || (wait == Ok && hs.state != Done)          // a callback has asked to be called again
          || (wait == Flush && hs.flight != [])
          || (Reading() && inbox == []))
    }

    /** A record is opened, if one has arrived. */
    twostate predicate OpensNext(go: bool)
      reads this
    {
      && (go <==> old(inbox) != [] && OpenRecord(k.server, Endpoint(old(hs), old(wait), old(inbox))).wait == Ok)
      && (go ==> hs == OpenRecord(k.server, Endpoint(old(hs), old(wait), old(inbox))).h)
    }

    /** Resolves the operation the handshake was waiting on, or returns from ssl_run_handshake. */
    method Resolve() returns (go: bool, ret: int, early: bool)
      requires Valid()
      modifies this
      ensures InOrder()
      ensures old(wait) == Error ==> wait == Error
      ensures trail == old(trail) && (go ==> OnPath(k, trail, hs))
      ensures go ==> HsOk(k, hs, Ok) && wire == hs.written && wait != Error && hs.state == old(hs).state && |inbox| <= |old(inbox)|
      ensures go && |inbox| == |old(inbox)| ==> old(wait) == Ok || old(wait) == Flush
      ensures !go ==> Valid() && Outcome(ret, early, old(wait) == EarlyReturn)
      ensures old(wait) == Ok ==> go && hs == old(hs)
      ensures old(wait) == Flush ==> (go <==> hs.flight == [])
      ensures old(Reading()) ==> OpensNext(go)
    {
      hide HsOk, OnPath, OpensNext, Outcome, EndpointOk;
      PauseOutcome();
      match wait {
        case Error =>
          return false, -1, false;
        case Flush =>
          go := WriteSome();
          return go, -1, false;
        case Async =>
          Pause();
          return false, -1, false;
        case EarlyReturn =>
          Pause();
          return false, 1, true;
        case Ok =>
          return true, 0, false;
        case _ =>
          go := OpenNext();
          return go, -1, false;
      }
    }

    lemma PauseOutcome()
      requires Valid()
      ensures wait == Error ==> Outcome(-1, false, false)
      ensures wait == Ok ==> HsOk(k, hs, Ok)
    {
      hide HsOk;
    }

    /** A callback has asked to be called again, or the caller may already write. */
    method Pause()
      requires Valid() && (wait == Async || wait == EarlyReturn)
      modifies this`wait
      ensures Valid() && wait == Ok && Outcome(if old(wait) == Async then -1 else 1, old(wait) == EarlyReturn, old(wait) == EarlyReturn)
    {
      hide HsOk, OnPath;
      MoveOk(k, Endpoint(hs, wait, inbox), Resume);
      wait := Ok;
    }

    /** The transport takes some of the flight. */
    method WriteSome() returns (go: bool)
      requires Valid() && wait == Flush
      modifies this`hs, this`wire
      ensures InOrder() && hs.state == old(hs).state && OnPath(k, trail, hs) && (go <==> hs.flight == [])
      ensures if go then HsOk(k, hs, Ok) && wire == hs.written else Valid() && Outcome(-1, false, false)
    {
      hide HsOk, OpenRecord, OnPath, Note;
      var n: nat :| n <= |hs.flight|;
      MoveOk(k, Endpoint(hs, wait, inbox), Write(n));
      PathStays(k, trail, hs, hs.(flight := hs.flight[n..], written := hs.written + hs.flight[..n]));
      wire, hs := wire + hs.flight[..n], hs.(flight := hs.flight[n..], written := hs.written + hs.flight[..n]);
      return hs.flight == [];
    }

    /** The next record that has arrived is opened. */
    method OpenNext() returns (go: bool)
      requires Valid() && Reading()
      modifies this`hs, this`wait, this`inbox
      ensures InOrder() && OpensNext(go)
      ensures go ==> HsOk(k, hs, Ok) && OnPath(k, trail, hs) && wire == hs.written && wait == old(wait)
      ensures go ==> hs.state == old(hs).state && |inbox| < |old(inbox)|
      ensures !go ==> Valid() && Outcome(-1, false, false)
    {
      hide HsOk, OpenRecord, OnPath, Note, EndpointOk;
      if inbox == [] {
        return false;
      }
      OpenKeeps(k, Endpoint(hs, wait, inbox));
      var e := OpenRecord(k.server, Endpoint(hs, wait, inbox));
      PathStays(k, trail, hs, e.h);
      hs, inbox := e.h, e.inbox;
      if e.wait == Error {
        wait := Error;
      }
      return e.wait != Error;
    }

    /** ssl_run_handshake: 1 when the handshake is done, or when it returns early; otherwise it
        has failed or is to be called again. */
    method RunHandshake() returns (ret: int, early: bool)
      requires Valid()
      modifies this
      ensures Valid() && InOrder()
      ensures (ret == 1 && !early) || Outcome(ret, early, early)
      ensures ret == 1 && !early ==> wait == Ok && hs.state == Done && Marks(hs.history) == Made(k, 3, 3)
      // The states have been left in order, and none with a check that failed; in particular:
      ensures ret == 1 && !early ==> OnPath(k, trail, hs)
      ensures ret == 1 && !early && !k.server && !k.p.resumed && k.p.certAuth ==>
        exists v :: v in trail && v.h.state == VerifyServerCertificate && v.c.Proceed?
      ensures ret == 1 && !early && k.server && !k.p.resumed && hs.peerCert ==>
        exists v :: v in trail && v.h.state == VerifyClientCertificate && v.c.Proceed?
      ensures ret == 1 && !early && k.server && !k.p.resumed && hs.peerCert ==> exists v :: v in trail && HasSigned(v)
    {
      hide HsOk, Rank, Marks, Made, OnPath, HasSigned;
      while true
        invariant Valid() && InOrder()
        decreases Work(), WaitWork()
      {
        var go;
        go, ret, early := Resolve();
        if !go {
          return;
        }
        // Run the state machine again.
        wait := DoHandshake();
        if wait == Error {
          return -1, false;
        }
        if wait == Ok {
          AllMade(k, hs);
          if !k.server && !k.p.resumed && k.p.certAuth { ClientVerified(k, trail, hs); }
          if k.server && !k.p.resumed && hs.peerCert { ServerVerified(k, trail, hs); }
          return 1, false;
        }
      }
    }
  }

  /** The trail after one more state. */
  ghost function Further(k: Conf, trail: seq<Visit>, h: Hs, c: Choice, r: Stepped): (t: seq<Visit>)
    requires OnPath(k, trail, h) && h.state != Done && r == Step(k, h, c) && r.wait != Error
    ensures OnPath(k, t, r.hs)
  {
    hide OnPath, Step, RowOf, GoesOn;
    EachStepIs(k, h, c);
    if r.hs.state != h.state then
      OneMoreVisit(k, trail, h, c, r);
      trail + [Visit(h, c)]
    else
      PathMoves(k, trail, h, c, r);
      trail
  }

  lemma OpenState(server: bool, e: Endpoint)
    requires e.inbox != [] && (e.wait == ReadMessage || e.wait == ReadChangeCipherSpec)
    ensures var n := OpenRecord(server, e);
      && n.inbox == e.inbox[1..] && n.h.state == e.h.state && n.h.written == e.h.written && n.h.peerCert == e.h.peerCert
      && (n.wait == Ok || n.wait == Error)
      && (n.wait == Ok ==> n.h.received == e.h.received + [e.inbox[0]])
  {}

  lemma OpenKeeps(k: Conf, e: Endpoint)
    requires EndpointOk(k, e) && e.inbox != [] && (e.wait == ReadMessage || e.wait == ReadChangeCipherSpec)
    ensures var n := OpenRecord(k.server, e);
      && n.inbox == e.inbox[1..] && n.h.state == e.h.state && n.h.written == e.h.written && n.h.peerCert == e.h.peerCert
      && (n.wait == Ok || n.wait == Error) && EndpointOk(k, n)
      && (n.wait == Ok ==> HsOk(k, n.h, Ok) && n.h.received == e.h.received + [e.inbox[0]])
  {
    hide OpenRecord, HsOk;
    OpenOk(k, e);
    OpenState(k.server, e);
  }

  /** A handshake that is done does not ask to be called again. */
  lemma PausedIsNotDone(k: Conf, h: Hs, c: Choice)
    requires h.state != Done
    ensures Step(k, h, c).wait == Async || Step(k, h, c).wait == EarlyReturn ==> Step(k, h, c).hs.state != Done
  {
    hide Step, GoesOn, Learns, Took;
    EachStepIs(k, h, c);
  }

  lemma AllMade(k: Conf, h: Hs)
    requires HsOk(k, h, Ok) && h.state == Done
    ensures Marks(h.history) == Made(k, 3, 3)
  {
    hide Marks, Made, Coherent;
  }
}
