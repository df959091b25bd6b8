/** The saturating reference count: compare-and-swap loops (crypto/refcount_c11.c) that threads run
    interleaved, against the same operations under a lock (crypto/refcount_lock.c). */
module Refcount {
  import opened Options

  const MAX: nat := 0xFFFF_FFFF

  // ------------------------------------------------------ under the lock

  /** An operation as it takes effect: a decrement with its result, or one that aborts. */
  datatype Event = Inc(thread: nat) | Dec(thread: nat, zero: bool) | Abort(thread: nat)

  /** The count after an event; None when the event cannot happen with this count. */
  function Effect(count: nat, e: Event): Option<nat>
  {
    match e
    case Inc(_) => Some(if count < MAX then count + 1 else count)
    case Dec(_, zero) =>
      if count == 0 then None
      else
        var after := if count < MAX then count - 1 else count;
        if zero == (after == 0) then Some(after) else None
    case Abort(_) => if count == 0 then Some(0) else None
  }

  /** The count after a sequence of events. */
  function Effects(count: nat, log: seq<Event>): Option<nat>
  {
    if log == [] then Some(count)
    else
      var c := Effects(count, log[..|log| - 1]);
      if c.None? then None else Effect(c.value, log[|log| - 1])
  }

  /** The lock version, on a shared counter. */
  class LockCount {
    var count: nat

    ghost predicate Valid() reads this { count <= MAX }

    constructor (initial: nat)
      requires initial <= MAX
      ensures Valid() && count == initial
    {
      count := initial;
    }

    /** CRYPTO_refcount_inc. */
    method Increment(ghost t: nat)
      requires Valid()
      modifies this
      ensures Valid() && Effect(old(count), Inc(t)) == Some(count)
      ensures count == if old(count) == 0xFFFF_FFFF then old(count) else old(count) + 1
    {
      if count < MAX {
        count := count + 1;
      }
    }

    /** CRYPTO_refcount_dec_and_test_zero; `aborted` stands for the call of abort. */
    method DecrementAndTestZero(ghost t: nat) returns (aborted: bool, zero: bool)
      requires Valid()
      modifies this
      ensures Valid() && Effect(old(count), if aborted then Abort(t) else Dec(t, zero)) == Some(count)
      ensures (aborted <==> old(count) == 0) && (zero <==> old(count) == 1)
      ensures count == if old(count) == 0 || old(count) == 0xFFFF_FFFF then old(count) else old(count) - 1
    {
      if count == 0 {
        return true, false;
      }
      if count < MAX {
        count := count - 1;
      }
      return false, count == 0;
    }
  }

  // ------------------------------------------------------ the loops, interleaved

  /** Where a thread stands. `expected` is the local variable of that name; Decided is behind the
      loop, before the return. */
  datatype Thread = Idle | Incrementing(expected: nat) | Decrementing(expected: nat) | Decided(event: Event)

  datatype State = State(count: nat, threads: seq<Thread>, log: seq<Event>, returned: seq<Event>)

  /** A thread calls an operation and loads the count; or it goes round its loop once, where the
      exchange may fail spuriously; or it returns. */
  datatype Step = Call(t: nat, increment: bool) | Try(t: nat, spurious: bool) | Return(t: nat)

  function Init(count: nat, n: nat): State
  {
    State(count, seq(n, _ => Idle), [], [])
  }

  predicate Enabled(s: State, a: Step)
  {
    a.t < |s.threads| &&
    match a
    case Call(t, _) => s.threads[t].Idle?
    case Try(t, _) => s.threads[t].Incrementing? || s.threads[t].Decrementing?
    case Return(t) => s.threads[t].Decided? && !s.threads[t].event.Abort?
  }

  /** Where a thread goes with a value it has read, and the event that this decides. */
  function AfterRead(t: nat, increment: bool, value: nat): Thread
  {
    if value == MAX then Decided(if increment then Inc(t) else Dec(t, false))
    else if !increment && value == 0 then Decided(Abort(t))
    else if increment then Incrementing(value) else Decrementing(value)
  }

  /** The state after thread `t` reads the count. */
  function Read(s: State, t: nat, increment: bool): State
    requires t < |s.threads|
  {
    var th := AfterRead(t, increment, s.count);
    s.(threads := s.threads[t := th], log := if th.Decided? then s.log + [th.event] else s.log)
  }

  function Next(s: State, a: Step): State
    requires Enabled(s, a)
  {
    match a
    case Call(t, increment) => Read(s, t, increment)
    case Try(t, spurious) =>
      var th := s.threads[t];
      if s.count != th.expected || spurious then Read(s, t, th.Incrementing?)
      else
        var value := (if th.Incrementing? then th.expected + 1 else th.expected + MAX) % (MAX + 1);    // 32-bit unsigned
        var e := if th.Incrementing? then Inc(t) else Dec(t, value == 0);
        s.(count := value, threads := s.threads[t := Decided(e)], log := s.log + [e])
    case Return(t) => s.(threads := s.threads[t := Idle], returned := s.returned + [s.threads[t].event])
  }

  /** The state after a run from `s`, if each of its steps is enabled where it is taken. */
  function Run(s: State, steps: seq<Step>): Option<State>
    decreases |steps|
  {
    if steps == [] then Some(s)
    else if Enabled(s, steps[0]) then Run(Next(s, steps[0]), steps[1..])
    else None
  }

  // ------------------------------------------------------ linearization

  /** The events of one thread, in order. */
  function Of(t: nat, log: seq<Event>): seq<Event>
  {
    if log == [] then [] else Of(t, log[..|log| - 1]) + (if log[|log| - 1].thread == t then [log[|log| - 1]] else [])
  }

  function Pending(th: Thread): seq<Event>
  {
    if th.Decided? then [th.event] else []
  }

  predicate ThreadOk(t: nat, th: Thread)
  {
    match th
    case Idle => true
    case Incrementing(expected) => expected < MAX
    case Decrementing(expected) => 0 < expected < MAX
    case Decided(e) => e.thread == t
  }

  ghost predicate Inv(c0: nat, s: State)
  {
    && s.count <= MAX && Effects(c0, s.log) == Some(s.count)
    && (forall t :: 0 <= t < |s.threads| ==> ThreadOk(t, s.threads[t]))
    && (forall t :: 0 <= t < |s.threads| ==> Of(t, s.log) == Of(t, s.returned) + Pending(s.threads[t]))
  }

  lemma OfThen(t: nat, log: seq<Event>, e: Event)
    ensures Of(t, log + [e]) == Of(t, log) + (if e.thread == t then [e] else [])
  {
    assert (log + [e])[..|log|] == log;
  }

  lemma EffectsThen(c0: nat, log: seq<Event>, e: Event)
    requires Effects(c0, log).Some?
    ensures Effects(c0, log + [e]) == Effect(Effects(c0, log).value, e)
  {
    assert (log + [e])[..|log|] == log;
  }

  /** A thread decides: its event is logged. */
  lemma InvDecide(c0: nat, s: State, t: nat, e: Event, count: nat)
    requires Inv(c0, s) && t < |s.threads| && !s.threads[t].Decided? && e.thread == t
    requires count <= MAX && Effect(s.count, e) == Some(count)
    ensures Inv(c0, s.(count := count, threads := s.threads[t := Decided(e)], log := s.log + [e]))
  {
    hide Of, Effects, Effect;
    EffectsThen(c0, s.log, e);
    forall u | 0 <= u < |s.threads| ensures Of(u, s.log + [e]) == Of(u, s.log) + (if e.thread == u then [e] else []) {
      OfThen(u, s.log, e);
    }
  }

  lemma InvRead(c0: nat, s: State, t: nat, increment: bool)
    requires Inv(c0, s) && t < |s.threads| && !s.threads[t].Decided?
    ensures Inv(c0, Read(s, t, increment))
  {
    hide Of, Effects;
    var th := AfterRead(t, increment, s.count);
    if th.Decided? {
      InvDecide(c0, s, t, th.event, s.count);
      assert Read(s, t, increment) == s.(count := s.count, threads := s.threads[t := th], log := s.log + [th.event]);
    }
  }

  lemma InvNext(c0: nat, s: State, a: Step)
    requires Inv(c0, s) && Enabled(s, a)
    ensures Inv(c0, Next(s, a))
  {
    hide Of, Effects, Read;
    var t := a.t;
    match a
    case Call(_, increment) => InvRead(c0, s, t, increment);
    case Try(_, spurious) =>
      var th := s.threads[t];
      assert ThreadOk(t, th);
      if s.count != th.expected || spurious {
        InvRead(c0, s, t, th.Incrementing?);
      } else if th.Incrementing? {
        InvDecide(c0, s, t, Inc(t), th.expected + 1);
      } else {
        InvDecide(c0, s, t, Dec(t, th.expected - 1 == 0), th.expected - 1);
      }
    case Return(_) =>
      forall u | 0 <= u < |s.threads|
        ensures Of(u, s.returned + [s.threads[t].event]) == Of(u, s.returned) + (if u == t then [s.threads[t].event] else [])
      {
        assert ThreadOk(t, s.threads[t]);
        OfThen(u, s.returned, s.threads[t].event);
      }
  }

  lemma {:induction false} InvRun(c0: nat, s: State, steps: seq<Step>, s': State)
    requires Inv(c0, s) && Run(s, steps) == Some(s')
    ensures Inv(c0, s')
    decreases |steps|
  {
    hide Inv;
    if steps != [] {
      InvNext(c0, s, steps[0]);
      InvRun(c0, Next(s, steps[0]), steps[1..], s');
    }
  }

  /** Every interleaving, with any spurious failures, is one of the lock version: taking effect in
      the order of the log, the operations have the results they return and lead to the count;
      and each thread's operations are logged between their calls and their returns. */
  lemma Linearizes(c0: nat, n: nat, steps: seq<Step>, s: State)
    requires c0 <= 0xFFFF_FFFF && Run(Init(c0, n), steps) == Some(s)
    ensures Effects(c0, s.log) == Some(s.count) && s.count <= 0xFFFF_FFFF
    ensures forall t :: 0 <= t < |s.threads| ==> Of(t, s.log) == Of(t, s.returned) + Pending(s.threads[t])
  {
    assert Inv(c0, Init(c0, n));
    InvRun(c0, Init(c0, n), steps, s);
  }

  // ------------------------------------------------------ what the lock version promises

  function Incs(log: seq<Event>): nat
  {
    if log == [] then 0 else Incs(log[..|log| - 1]) + (if log[|log| - 1].Inc? then 1 else 0)
  }

  function Decs(log: seq<Event>): nat
  {
    if log == [] then 0 else Decs(log[..|log| - 1]) + (if log[|log| - 1].Dec? then 1 else 0)
  }

  /** An unsaturated count is what was added, less what was taken away. */
  lemma {:induction false} CountIsConserved(c0: nat, log: seq<Event>)
    requires Effects(c0, log).Some? && Effects(c0, log).value < 0xFFFF_FFFF
    ensures Effects(c0, log).value == c0 + Incs(log) - Decs(log)
    decreases |log|
  {
    if log != [] { CountIsConserved(c0, log[..|log| - 1]); }
  }

  /** The maximum is absorbing, in every interleaving. */
  lemma {:induction false} MaxAbsorbs(c0: nat, s: State, steps: seq<Step>, s': State)
    requires Inv(c0, s) && s.count == 0xFFFF_FFFF && Run(s, steps) == Some(s')
    ensures s'.count == 0xFFFF_FFFF
    decreases |steps|
  {
    hide Of, Effects;
    if steps != [] {
      var a := steps[0];
      InvNext(c0, s, a);
      assert ThreadOk(a.t, s.threads[a.t]);
      MaxAbsorbs(c0, Next(s, a), steps[1..], s');
    }
  }

  /** A decrement reports zero exactly when it takes the count from 1 to 0. */
  lemma {:induction false} ZeroIsOwnStep(c0: nat, log: seq<Event>, i: nat)
    requires Effects(c0, log).Some? && i < |log| && log[i].Dec?
    ensures Effects(c0, log[..i]).Some? && Effects(c0, log[..i + 1]).Some?
    ensures log[i].zero <==> Effects(c0, log[..i]).value == 1 && Effects(c0, log[..i + 1]).value == 0
    decreases |log|
  {
    var short := log[..|log| - 1];
    if i < |short| {
      assert short[..i] == log[..i] && short[..i + 1] == log[..i + 1];
      ZeroIsOwnStep(c0, short, i);
    } else {
      assert log[..i + 1] == log && log[..i] == short;
    }
  }

  function Zeros(log: seq<Event>): nat
  {
    if log == [] then 0
    else Zeros(log[..|log| - 1]) + (if log[|log| - 1].Dec? && log[|log| - 1].zero then 1 else 0)
  }

  /** Nobody takes a new reference once the count is zero. */
  ghost predicate NoRevival(c0: nat, log: seq<Event>)
  {
    forall i :: 0 <= i < |log| && log[i].Inc? ==> Effects(c0, log[..i]) != Some(0)
  }

  /** Then the object is released exactly once: when the count has become zero. */
  lemma {:induction false} ReleasedOnce(c0: nat, log: seq<Event>)
    requires 0 < c0 && Effects(c0, log).Some? && NoRevival(c0, log)
    ensures Zeros(log) == if Effects(c0, log).value == 0 then 1 else 0
    decreases |log|
  {
    if log != [] {
      var short := log[..|log| - 1];
      assert Effects(c0, log[..|log| - 1]).Some?;
      forall i | 0 <= i < |short| && short[i].Inc? ensures Effects(c0, short[..i]) != Some(0) {
        assert short[..i] == log[..i] && log[i].Inc?;
      }
      ReleasedOnce(c0, short);
    }
  }
}
