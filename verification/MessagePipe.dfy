/** The lossless, non-blocking fan-in between a backend and the pump. */
module MessagePipe {
  import opened Wrappers

  /** Where the relay goroutine is. */
  datatype Relay<M> = Top | Waiting | Holding(message: M) | Done

  /** Shared state, plus the kicks that were decided under the lock but not yet
      executed, plus two histories. */
  datatype Pipe<M> = Pipe(
    q: seq<M>, closed: bool, wake: bool, kicks: nat, relay: Relay<M>,
    accepted: seq<M>, delivered: seq<M>)

  /** The atomic steps.  `Enter` is the relay's critical section; `Deliver`
      completes when the reader takes the message. */
  datatype PipeStep<M> = Send(message: M) | Close | Kick | Enter | Wake | Deliver

  function Fresh<M>(): Pipe<M> { Pipe([], false, false, 0, Top, [], []) }

  function Next<M>(p: Pipe<M>, a: PipeStep<M>): Option<Pipe<M>> {
    match a
    case Send(m) =>
      Some(if p.closed then p else p.(q := p.q + [m], kicks := p.kicks + 1, accepted := p.accepted + [m]))
    case Close => Some(if p.closed then p else p.(closed := true, kicks := p.kicks + 1))
    case Kick => if p.kicks > 0 then Some(p.(kicks := p.kicks - 1, wake := true)) else None
    case Enter =>
      if p.relay != Top then None
      else if p.q != [] then Some(p.(relay := Holding(p.q[0]), q := p.q[1..]))
      else if p.closed then Some(p.(relay := Done))
      else Some(p.(relay := Waiting))
    case Wake => if p.relay == Waiting && p.wake then Some(p.(wake := false, relay := Top)) else None
    case Deliver =>
      if p.relay.Holding? then Some(p.(delivered := p.delivered + [p.relay.message], relay := Top)) else None
  }

  function InFlight<M>(p: Pipe<M>): seq<M> {
    if p.relay.Holding? then [p.relay.message] else []
  }

  /** Nothing is lost or reordered, no wakeup is missed, and the output channel
      closes only when everything has been delivered. */
  ghost predicate Inv<M>(p: Pipe<M>) {
    && p.accepted == p.delivered + InFlight(p) + p.q
    && (p.relay == Waiting && (p.q != [] || p.closed) ==> p.wake || p.kicks > 0)
    && (p.relay == Done ==> p.closed && p.q == [])
  }

  lemma FreshInv<M>()
    ensures Inv(Fresh<M>())
  {
  }

  lemma StepInv<M>(p: Pipe<M>, a: PipeStep<M>)
    requires Inv(p) && Next(p, a).Some?
    ensures Inv(Next(p, a).value)
  {
    var p' := Next(p, a).value;
    match a {
      case Send(m) =>
        assert p.delivered + InFlight(p) + (p.q + [m]) == p.delivered + InFlight(p) + p.q + [m];
      case Enter =>
        if p.q != [] && p.relay == Top {
          assert p.q == [p.q[0]] + p.q[1..];
          assert p.delivered + [] + ([p.q[0]] + p.q[1..]) == p.delivered + [p.q[0]] + p.q[1..];
        }
      case Deliver =>
        assert p.delivered + InFlight(p) + p.q == (p.delivered + InFlight(p)) + [] + p.q;
      case _ =>
    }
  }

  function Exec<M>(p: Pipe<M>, steps: seq<PipeStep<M>>): Option<Pipe<M>>
    decreases |steps|
  {
    if steps == [] then Some(p)
    else match Next(p, steps[0])
      case None => None
      case Some(p') => Exec(p', steps[1..])
  }

  /** The messages sent before the pipe was closed. */
  function SentOpen<M>(steps: seq<PipeStep<M>>, closed: bool): seq<M> {
    if steps == [] || closed then []
    else (if steps[0].Send? then [steps[0].message] else []) + SentOpen(steps[1..], steps[0].Close?)
  }

  /** Exactly these are accepted, in their order. */
  lemma {:induction false} AcceptedIsSent<M>(p: Pipe<M>, steps: seq<PipeStep<M>>)
    requires Exec(p, steps).Some?
    ensures Exec(p, steps).value.accepted == p.accepted + SentOpen(steps, p.closed)
    decreases |steps|
  {
    if steps != [] {
      var p' := Next(p, steps[0]).value;
      AcceptedIsSent(p', steps[1..]);
      if p.closed {
        NothingSent(steps[1..]);
      } else if steps[0].Send? {
        var more := SentOpen(steps[1..], false);
        assert (p.accepted + [steps[0].message]) + more == p.accepted + ([steps[0].message] + more);
      } else {
        assert [] + SentOpen(steps[1..], p'.closed) == SentOpen(steps[1..], p'.closed);
      }
    }
  }

  lemma NothingSent<M>(steps: seq<PipeStep<M>>)
    ensures SentOpen(steps, true) == []
  {
  }

  /** In every interleaving of senders, closers, kicks, relay and reader. */
  lemma {:induction false} PipeSafe<M>(p: Pipe<M>, steps: seq<PipeStep<M>>)
    requires Inv(p) && Exec(p, steps).Some?
    ensures Inv(Exec(p, steps).value)
    ensures Exec(p, steps).value.relay == Done ==> Exec(p, steps).value.delivered == Exec(p, steps).value.accepted
    ensures Exec(p, steps).value.accepted == p.accepted + SentOpen(steps, p.closed)
    decreases |steps|
  {
    hide SentOpen, Next;
    AcceptedIsSent(p, steps);
    if steps != [] {
      StepInv(p, steps[0]);
      PipeSafe(Next(p, steps[0]).value, steps[1..]);
    }
  }

  // ---------- the relay finishes once the pipe is closed and read ----------

  predicate Internal<M>(a: PipeStep<M>) { a == Kick || a == Enter || a == Wake || a == Deliver }

  function Measure<M>(p: Pipe<M>): nat {
    p.kicks + 2 * |p.q| + (match p.relay case Done => 0 case Top => 1 case Waiting => 2 case Holding(_) => 2)
  }

  lemma InternalDecreases<M>(p: Pipe<M>, a: PipeStep<M>)
    requires p.closed && Internal(a) && Next(p, a).Some?
    ensures Next(p, a).value.closed && Measure(Next(p, a).value) < Measure(p)
    ensures Next(p, a).value.accepted == p.accepted
  {
  }

  lemma SomethingEnabled<M>(p: Pipe<M>)
    requires Inv(p) && p.closed && p.relay != Done
    ensures exists a: PipeStep<M> :: Internal(a) && Next(p, a).Some?
  {
    var a: PipeStep<M> :=
      match p.relay
      case Top => Enter
      case Holding(_) => Deliver
      case Waiting => if p.wake then Wake else Kick
      case Done => Enter;
    assert Internal(a) && Next(p, a).Some?;
  }

  /** Once closed: every run of internal steps is at most `Measure` long, and
      one that cannot be continued has delivered everything accepted. */
  lemma {:induction false} RelayFinishes<M(!new)>(p: Pipe<M>, steps: seq<PipeStep<M>>)
    requires Inv(p) && p.closed && Exec(p, steps).Some?
    requires forall i :: 0 <= i < |steps| ==> Internal(steps[i])
    ensures |steps| <= Measure(p)
    ensures var p' := Exec(p, steps).value;
            (forall a :: Internal(a) ==> Next(p', a).None?) ==> p'.relay == Done && p'.delivered == p.accepted
    decreases |steps|
  {
    if steps == [] {
      if p.relay != Done { SomethingEnabled(p); }
    } else {
      StepInv(p, steps[0]);
      InternalDecreases(p, steps[0]);
      RelayFinishes(Next(p, steps[0]).value, steps[1..]);
    }
  }

  // ---------- the code ----------

  /** The mutex-guarded fields and the one-slot wake channel. */
  class Shared<M> {
    var q: seq<M>
    var closed: bool
    var wake: bool

    ghost predicate Shows(p: Pipe<M>)
      reads this
    {
      q == p.q && closed == p.closed && wake == p.wake
    }

    constructor ()
      ensures Shows(Fresh())
    {
      q, closed, wake := [], false, false;
    }

    /** Send up to the unlock; `kick` tells whether the caller goes on to kick. */
    method Send(m: M, ghost p: Pipe<M>) returns (kick: bool)
      requires Shows(p)
      modifies this
      ensures Shows(Next(p, PipeStep.Send(m)).value)
      ensures Next(p, PipeStep.Send(m)).value.kicks == p.kicks + (if kick then 1 else 0)
      ensures kick <==> !closed
      ensures q == if kick then old(q) + [m] else old(q)
    {
      if closed {
        return false;
      }
      q := q + [m];
      return true;
    }

    method Close(ghost p: Pipe<M>) returns (kick: bool)
      requires Shows(p)
      modifies this
      ensures Shows(Next(p, PipeStep.Close).value)
      ensures Next(p, PipeStep.Close).value.kicks == p.kicks + (if kick then 1 else 0)
    {
      if closed {
        return false;
      }
      closed := true;
      return true;
    }

    /** A non-blocking send on the one-slot channel. */
    method Kick(ghost p: Pipe<M>)
      requires Shows(p) && p.kicks > 0
      modifies this
      ensures Shows(Next(p, PipeStep.Kick).value)
    {
      if !wake {
        wake := true;
      }
    }

    /** The relay's receive on the wake channel; blocks while it is empty. */
    method Receive(ghost p: Pipe<M>)
      requires Shows(p) && p.relay == Waiting && wake
      modifies this
      ensures Shows(Next(p, PipeStep.Wake).value)
    {
      wake := false;
    }

    /** The relay's critical section: what it does next. */
    method Take(ghost p: Pipe<M>) returns (next: Relay<M>)
      requires Shows(p) && p.relay == Top
      modifies this
      ensures Shows(Next(p, PipeStep.Enter).value) && Next(p, PipeStep.Enter).value.relay == next
    {
      if |q| == 0 && !closed {
        return Waiting;
      }
      if |q| == 0 {
        return Done;
      }
      next := Holding(q[0]);
      q := q[1..];
    }
  }
}
