/** The JSON-RPC client in front of the Codex process: a table of pending calls
    raced by responses, by process exit and by the callers' own contexts. */
module CodexRpc {
  import opened Wrappers

  type Id = nat

  /** What the process says about one call. */
  datatype Body = Result(raw: string) | Rejected(rpcMethod: string, code: int, message: string)

  /** What is put into a call's one-slot channel. */
  datatype Reply = Answer(id: Id, body: Body) | Failure(err: string)

  /** How a call ended for its caller. */
  datatype Outcome = Got(reply: Reply) | Gone(err: string) | ContextDone | NotSent

  datatype Phase = Writing | Waiting | Returned(outcome: Outcome)

  /** One call: where its caller is, what its channel holds, and how often
      something has been sent on it. */
  datatype Call = Call(phase: Phase, slot: Option<Reply>, sends: nat)

  datatype Done = NotMade | Open | Closed

  /** `flight` holds responses taken out of the table whose send on the channel,
      which happens outside the lock, is still to come. */
  datatype State = State(
    next: nat, calls: map<Id, Call>, pending: set<Id>, flight: map<Id, Reply>,
    exitErr: Option<string>, done: Done, closes: nat)

  const EXITED := "codex process exited"

  /** The client before its first call; Execute makes the done channel up front,
      a client built without one makes it on its first call. */
  predicate Initial(s: State) {
    s == State(0, map[], {}, map[], None, NotMade, 0) || s == State(0, map[], {}, map[], None, Open, 0)
  }

  datatype Step =
    | Request
    | NotWritten(id: Id)
    | Written(id: Id)
    | Response(id: Id, body: Body)
    | Deliver(id: Id)
    | ProcessExit(cause: Option<string>)
    | CloseAllPending(err: string)
    | Receive(id: Id)
    | SeeDone(id: Id, ctxOver: bool)
    | SeeContext(id: Id)

  predicate Unreturned(s: State, id: Id) {
    id in s.calls && !s.calls[id].phase.Returned?
  }

  predicate IsWaiting(s: State, id: Id) {
    id in s.calls && s.calls[id].phase.Waiting?
  }

  function Return(s: State, id: Id, outcome: Outcome): State
    requires id in s.calls
  {
    s.(calls := s.calls[id := s.calls[id].(phase := Returned(outcome))], pending := s.pending - {id})
  }

  function Sent(c: Call, reply: Reply): Call {
    c.(slot := Some(reply), sends := c.sends + 1)
  }

  function FailPending(s: State, err: string): State
  {
    s.(calls := map id | id in s.calls :: if id in s.pending then Sent(s.calls[id], Failure(err)) else s.calls[id],
       pending := {})
  }

  /** The next state; a step whose guard does not hold leaves the state alone. */
  function Next(s: State, a: Step): State {
    match a
    case Request =>
      if s.exitErr.Some? then s
      else
        var id := s.next + 1;
        s.(next := id, calls := s.calls[id := Call(Writing, None, 0)], pending := s.pending + {id},
           done := if s.done.NotMade? then Open else s.done)
    case NotWritten(id) =>
      if id in s.calls && s.calls[id].phase.Writing? then Return(s, id, NotSent) else s
    case Written(id) =>
      if id in s.calls && s.calls[id].phase.Writing?
      then s.(calls := s.calls[id := s.calls[id].(phase := Waiting)])
      else s
    case Response(id, body) =>
      if id in s.pending then s.(pending := s.pending - {id}, flight := s.flight[id := Answer(id, body)]) else s
    case Deliver(id) =>
      if id in s.flight && id in s.calls && s.calls[id].slot.None?
      then s.(calls := s.calls[id := Sent(s.calls[id], s.flight[id])], flight := s.flight - {id}) else s
    case ProcessExit(reason) =>
      var cause := if reason.Some? then reason.value else EXITED;
      FailPending(
        if s.exitErr.Some? then s
        else s.(exitErr := Some(cause), done := if s.done.NotMade? then NotMade else Closed,
                closes := if s.done.NotMade? then s.closes else s.closes + 1), cause)
    case CloseAllPending(err) =>
      FailPending(s, err)
    case Receive(id) =>
      if IsWaiting(s, id) && s.calls[id].slot.Some?
      then s.(calls := s.calls[id := s.calls[id].(phase := Returned(Got(s.calls[id].slot.value)), slot := None)]) else s
    case SeeDone(id, ctxOver) =>
      if IsWaiting(s, id) && s.done.Closed?
      then Return(s, id, if ctxOver then ContextDone else Gone(if s.exitErr.Some? then s.exitErr.value else EXITED))
      else s
    case SeeContext(id) =>
      if IsWaiting(s, id) then Return(s, id, ContextDone) else s
  }

  // ---------- what every step keeps ----------

  /** What holds of one call. */
  ghost predicate CallOk(s: State, id: Id)
    requires id in s.calls
  {
    var c := s.calls[id];
    && 1 <= id <= s.next
    && c.sends <= 1
    && (id in s.pending || id in s.flight ==> c.slot.None? && c.sends == 0)
    && (id in s.pending ==> !c.phase.Returned? && id !in s.flight)
    && (id in s.flight ==> s.flight[id].Answer? && s.flight[id].id == id)
    && (c.slot.Some? ==> c.sends == 1 && (c.slot.value.Answer? ==> c.slot.value.id == id))
    && (!c.phase.Returned? && id !in s.pending && id !in s.flight ==> c.slot.Some?)
    && (c.phase.Returned? && c.phase.outcome.Got? ==>
          c.sends == 1 && (c.phase.outcome.reply.Answer? ==> c.phase.outcome.reply.id == id))
  }

  ghost predicate Inv(s: State) {
    && s.pending <= s.calls.Keys && s.flight.Keys <= s.calls.Keys
    && (forall id :: id in s.calls ==> CallOk(s, id))
    && (s.exitErr.Some? ==> s.pending == {})
    && (s.done.NotMade? ==> s.calls == map[])
    && (s.done.Closed? <==> s.exitErr.Some? && !s.done.NotMade?)
    && s.closes == if s.done.Closed? then 1 else 0
  }

  lemma StepInv(s: State, a: Step)
    requires Inv(s)
    ensures Inv(Next(s, a))
  {
  }

  /** Sends under the lock find every channel of the table empty. */
  ghost predicate RoomForAll(s: State) {
    s.pending <= s.calls.Keys && forall id :: id in s.pending ==> s.calls[id].slot.None?
  }

  lemma SendsNeverBlock(s: State)
    requires Inv(s)
    ensures RoomForAll(s)
  {
    forall id | id in s.pending ensures s.calls[id].slot.None? {
      assert CallOk(s, id);
    }
  }

  /** A response handled without anything in between: the entry is gone and its
      channel, which was empty, holds the answer. */
  lemma ResponseDelivered(s: State, id: Id, body: Body)
    requires Inv(s) && id in s.pending
    ensures s.calls[id].slot == None
    ensures Next(Next(s, Response(id, body)), Deliver(id))
         == s.(pending := s.pending - {id}, calls := s.calls[id := Sent(s.calls[id], Answer(id, body))])
  {
    assert CallOk(s, id);
    assert Next(s, Response(id, body)).flight - {id} == s.flight;
  }

  function Exec(s: State, run: seq<Step>): State
    decreases |run|
  {
    if run == [] then s else Next(Exec(s, run[..|run| - 1]), run[|run| - 1])
  }

  /** Where an answer can sit on its way to the caller. */
  ghost predicate Holds(s: State, id: Id, body: Body) {
    || (id in s.flight && s.flight[id] == Answer(id, body))
    || (id in s.calls && s.calls[id].slot == Some(Answer(id, body)))
    || (id in s.calls && s.calls[id].phase == Returned(Got(Answer(id, body))))
  }

  /** Over every interleaving: a pending call's channel is empty, so no send
      made under the lock can block and no late send finds it full; each call is
      sent at most one reply, and an answer only if the process gave it to that
      very call; the done channel is closed at most once; and once the process
      has exited the table is empty and stays empty. */
  lemma {:induction false} RpcSafe(s: State, run: seq<Step>)
    requires Initial(s)
    ensures Inv(Exec(s, run))
    ensures forall id, body :: Holds(Exec(s, run), id, body) ==> Response(id, body) in run
    decreases |run|
  {
    if run != [] {
      var before := run[..|run| - 1];
      RpcSafe(s, before);
      StepInv(Exec(s, before), run[|run| - 1]);
      StepHolds(Exec(s, before), run[|run| - 1]);
    }
  }

  /** An answer appears only by a response step for that call. */
  lemma StepHolds(s: State, a: Step)
    requires Inv(s)
    ensures forall id, body :: Holds(Next(s, a), id, body) ==> Holds(s, id, body) || a == Response(id, body)
  {
  }

  // ---------- after the exit ----------

  ghost function WritingIds(s: State): set<Id> { set id | id in s.calls && s.calls[id].phase.Writing? }
  ghost function OpenIds(s: State): set<Id> { set id | id in s.calls && !s.calls[id].phase.Returned? }

  /** Work left: two steps for a caller still writing, one for a caller waiting,
      one for each response in flight. */
  ghost function Work(s: State): nat {
    |WritingIds(s)| + |OpenIds(s)| + |s.flight.Keys|
  }

  lemma Fewer(a: set<Id>, b: set<Id>)
    requires a <= b
    ensures |a| <= |b| && (a != b ==> |a| < |b|)
  {
    if a != b {
      var x :| x in b && x !in a;
      assert b == (b - {x}) + {x};
      Fewer(a, b - {x});
    }
  }

  lemma NothingToFail(s: State, err: string)
    requires s.pending == {}
    ensures FailPending(s, err) == s
  {
    assert FailPending(s, err).calls == s.calls;
  }

  /** After the exit a step either changes nothing or brings the callers nearer
      to their end, and the first exit's error is the one that stays. */
  lemma AfterExit(s: State, a: Step)
    requires Inv(s) && s.exitErr.Some?
    ensures Next(s, a).exitErr == s.exitErr
    ensures Next(s, a) == s || Work(Next(s, a)) < Work(s)
  {
    var t := Next(s, a);
    if a.ProcessExit? || a.CloseAllPending? {
      NothingToFail(s, if a.CloseAllPending? then a.err else if a.cause.Some? then a.cause.value else EXITED);
    } else if t != s {
      assert a.id in WritingIds(s) - WritingIds(t) || a.id in OpenIds(s) - OpenIds(t)
        || a.id in s.flight.Keys - t.flight.Keys;
      assert WritingIds(t) <= WritingIds(s) && OpenIds(t) <= OpenIds(s) && t.flight.Keys <= s.flight.Keys;
      Fewer(WritingIds(t), WritingIds(s));
      Fewer(OpenIds(t), OpenIds(s));
      Fewer(t.flight.Keys, s.flight.Keys);
    }
  }

  /** Every step of the run changes the state. */
  predicate Active(s: State, run: seq<Step>)
    decreases |run|
  {
    run == [] || (Next(s, run[0]) != s && Active(Next(s, run[0]), run[1..]))
  }

  function ExecFrom(s: State, run: seq<Step>): State
    decreases |run|
  {
    if run == [] then s else ExecFrom(Next(s, run[0]), run[1..])
  }

  /** No caller is stranded: after the exit only finitely many steps can happen,
      in whatever order, and when none is left every call has returned. */
  lemma {:induction false} NobodyStranded(s: State, run: seq<Step>)
    requires Inv(s) && s.exitErr.Some? && Active(s, run)
    ensures |run| <= Work(s) && Inv(ExecFrom(s, run)) && ExecFrom(s, run).exitErr == s.exitErr
    ensures (forall a :: Next(ExecFrom(s, run), a) == ExecFrom(s, run)) ==>
            forall id :: id in ExecFrom(s, run).calls ==> ExecFrom(s, run).calls[id].phase.Returned?
    decreases |run|
  {
    if run == [] {
      if (forall a :: Next(s, a) == s) {
        forall id | id in s.calls
          ensures s.calls[id].phase.Returned?
        {
          assert CallOk(s, id);
          assert Next(s, Written(id)) == s;
          assert Next(s, SeeDone(id, false)) == s;
        }
      }
    } else {
      StepInv(s, run[0]);
      AfterExit(s, run[0]);
      NobodyStranded(Next(s, run[0]), run[1..]);
    }
  }

  /** A call's return value is settled: nothing that happens later changes it. */
  lemma {:induction false} ReturnIsFinal(s: State, id: Id, run: seq<Step>)
    requires Inv(s) && id in s.calls && s.calls[id].phase.Returned?
    ensures id in ExecFrom(s, run).calls && ExecFrom(s, run).calls[id].phase == s.calls[id].phase
    decreases |run|
  {
    if run != [] {
      hide CallOk, Next;
      StepInv(s, run[0]);
      ReturnStays(s, id, run[0]);
      ReturnIsFinal(Next(s, run[0]), id, run[1..]);
    }
  }

  lemma ReturnStays(s: State, id: Id, a: Step)
    requires Inv(s) && id in s.calls && s.calls[id].phase.Returned?
    ensures id in Next(s, a).calls && Next(s, a).calls[id].phase == s.calls[id].phase
  {
    assert CallOk(s, id);
  }

  /** The response of the run below, delivered while its caller still waits. */
  function Delivered(body: Body): State {
    Next(Next(Next(Next(State(0, map[], {}, map[], None, Open, 0), Request), Written(1)), Response(1, body)),
         Deliver(1))
  }

  lemma DeliveredState(body: Body)
    ensures 1 in Delivered(body).calls && Delivered(body).calls[1] == Call(Waiting, Some(Answer(1, body)), 1)
    ensures Delivered(body).done == Open && Delivered(body).pending == {} && Delivered(body).exitErr == None
  {
    var s1 := Next(State(0, map[], {}, map[], None, Open, 0), Request);
    assert s1.calls == map[1 := Call(Writing, None, 0)] && s1.pending == {1};
    var s2 := Next(s1, Written(1));
    var s3 := Next(s2, Response(1, body));
    assert s3.calls[1] == Call(Waiting, None, 0) && s3.flight == map[1 := Answer(1, body)] && s3.pending == {};
  }

  /** An answer already in the channel can still be lost: once the process has
      exited, the caller's select may take the closed done channel instead. */
  lemma AnswerCanBeLost(body: Body)
    ensures Delivered(body)
            == ExecFrom(State(0, map[], {}, map[], None, Open, 0), [Request, Written(1), Response(1, body), Deliver(1)])
    ensures var s := Next(Next(Delivered(body), ProcessExit(None)), SeeDone(1, false));
            1 in s.calls && s.calls[1] == Call(Returned(Gone(EXITED)), Some(Answer(1, body)), 1)
  {
    DeliveredState(body);
    NothingToFail(Delivered(body).(exitErr := Some(EXITED),
      done := Closed, closes := Delivered(body).closes + 1), EXITED);
    DeliveredRun(body);
  }

  /** The call waits and its channel holds this answer. */
  predicate Holding(s: State, id: Id, answer: Reply) {
    IsWaiting(s, id) && s.calls[id].slot == Some(answer)
  }

  predicate GotIt(s: State, id: Id, answer: Reply) {
    id in s.calls && s.calls[id].phase == Returned(Got(answer))
  }

  lemma HoldingStep(s: State, id: Id, answer: Reply, a: Step)
    requires Inv(s) && !s.done.Closed? && (Holding(s, id, answer) || GotIt(s, id, answer))
    requires !a.ProcessExit? && a != SeeContext(id)
    ensures !Next(s, a).done.Closed? && (Holding(Next(s, a), id, answer) || GotIt(Next(s, a), id, answer))
  {
    assert CallOk(s, id);
  }

  /** While the process lives and the caller's own context holds, a delivered
      answer is safe: the call still waits with it or has returned with exactly it. */
  lemma {:induction false} AnswerKept(s: State, id: Id, answer: Reply, run: seq<Step>)
    requires Inv(s) && !s.done.Closed? && (Holding(s, id, answer) || GotIt(s, id, answer))
    requires forall i :: 0 <= i < |run| ==> !run[i].ProcessExit? && run[i] != SeeContext(id)
    ensures Holding(ExecFrom(s, run), id, answer) || GotIt(ExecFrom(s, run), id, answer)
    decreases |run|
  {
    hide Next, Inv, Holding, GotIt;
    if run != [] {
      StepInv(s, run[0]);
      HoldingStep(s, id, answer, run[0]);
      AnswerKept(Next(s, run[0]), id, answer, run[1..]);
    }
  }

  /** The answer is on its way to the call, in its channel, or returned. */
  predicate OnItsWay(s: State, id: Id, answer: Reply) {
    && id in s.calls
    && (GotIt(s, id, answer)
        || (!s.calls[id].phase.Returned?
            && ((id in s.flight && s.flight[id] == answer) || s.calls[id].slot == Some(answer))))
  }

  lemma OnItsWayStep(s: State, id: Id, answer: Reply, a: Step)
    requires Inv(s) && !s.done.Closed? && OnItsWay(s, id, answer)
    requires !a.ProcessExit? && a != SeeContext(id) && a != NotWritten(id)
    ensures !Next(s, a).done.Closed? && OnItsWay(Next(s, a), id, answer)
  {
    assert CallOk(s, id);
  }

  lemma {:induction false} OnItsWayRun(s: State, id: Id, answer: Reply, run: seq<Step>)
    requires Inv(s) && !s.done.Closed? && OnItsWay(s, id, answer)
    requires forall i :: 0 <= i < |run| ==> !run[i].ProcessExit? && run[i] != SeeContext(id) && run[i] != NotWritten(id)
    ensures OnItsWay(ExecFrom(s, run), id, answer)
    decreases |run|
  {
    hide Next, Inv, OnItsWay;
    if run != [] {
      StepInv(s, run[0]);
      OnItsWayStep(s, id, answer, run[0]);
      OnItsWayRun(Next(s, run[0]), id, answer, run[1..]);
    }
  }

  /** The process's answer to a call in the table reaches it: whatever others do,
      it stays on its way until the call has returned with exactly it, unless the
      request could not be written, the caller gave up, or the process exited. */
  lemma ResponseArrives(s: State, id: Id, body: Body, run: seq<Step>)
    requires Inv(s) && !s.done.Closed? && id in s.pending
    requires forall i :: 0 <= i < |run| ==> !run[i].ProcessExit? && run[i] != SeeContext(id) && run[i] != NotWritten(id)
    ensures OnItsWay(ExecFrom(Next(s, Response(id, body)), run), id, Answer(id, body))
  {
    hide ExecFrom;
    assert CallOk(s, id);
    StepInv(s, Response(id, body));
    OnItsWayRun(Next(s, Response(id, body)), id, Answer(id, body), run);
  }

  /** Some run, with no further exit and no end of the caller's context, after
      which the call has returned with something else. */
  ghost predicate CanLose(s: State, id: Id, answer: Reply) {
    exists run :: Spared(run, id) && Lost(ExecFrom(s, run), id, answer)
  }

  predicate Spared(run: seq<Step>, id: Id) {
    forall i :: 0 <= i < |run| ==> !run[i].ProcessExit? && run[i] != SeeContext(id)
  }

  predicate Lost(s: State, id: Id, answer: Reply) {
    id in s.calls && s.calls[id].phase.Returned? && s.calls[id].phase.outcome != Got(answer)
  }

  /** A delivered answer can be lost if and only if the process has exited while
      the call still waited; then the select may take the closed done channel. */
  lemma LostExactly(s: State, id: Id, answer: Reply)
    requires Inv(s) && Holding(s, id, answer)
    ensures CanLose(s, id, answer) <==> s.done.Closed?
    ensures CanLose(Next(s, ProcessExit(None)), id, answer)
  {
    if s.done.Closed? {
      DoneLoses(s, id, answer);
    } else {
      if CanLose(s, id, answer) {
        var run :| Spared(run, id) && Lost(ExecFrom(s, run), id, answer);
        AnswerKept(s, id, answer, run);
      }
    }
    ExitKeepsHolding(s, id, answer);
    StepInv(s, ProcessExit(None));
    DoneLoses(Next(s, ProcessExit(None)), id, answer);
  }

  lemma ExitKeepsHolding(s: State, id: Id, answer: Reply)
    requires Inv(s) && Holding(s, id, answer)
    ensures Holding(Next(s, ProcessExit(None)), id, answer) && Next(s, ProcessExit(None)).done.Closed?
  {
    assert CallOk(s, id);
  }

  lemma DoneLoses(s: State, id: Id, answer: Reply)
    requires Inv(s) && Holding(s, id, answer) && s.done.Closed?
    ensures CanLose(s, id, answer)
  {
    var run := [SeeDone(id, false)];
    Prepend(s, SeeDone(id, false), []);
    assert [SeeDone(id, false)] + [] == run;
    assert ExecFrom(Next(s, SeeDone(id, false)), []) == Next(s, SeeDone(id, false));
    assert Spared(run, id) && Lost(ExecFrom(s, run), id, answer);
  }

  lemma DeliveredRun(body: Body)
    ensures Delivered(body)
            == ExecFrom(State(0, map[], {}, map[], None, Open, 0), [Request, Written(1), Response(1, body), Deliver(1)])
  {
    hide Next;
    var s0 := State(0, map[], {}, map[], None, Open, 0);
    var s1 := Next(s0, Request);
    var s2 := Next(s1, Written(1));
    var s3 := Next(s2, Response(1, body));
    Prepend(s3, Deliver(1), []);
    Prepend(s2, Response(1, body), [Deliver(1)]);
    Prepend(s1, Written(1), [Response(1, body), Deliver(1)]);
    Prepend(s0, Request, [Written(1), Response(1, body), Deliver(1)]);
    assert [Request] + [Written(1), Response(1, body), Deliver(1)]
      == [Request, Written(1), Response(1, body), Deliver(1)];
    assert [Written(1)] + [Response(1, body), Deliver(1)] == [Written(1), Response(1, body), Deliver(1)];
    assert [Response(1, body)] + [Deliver(1)] == [Response(1, body), Deliver(1)];
    assert [Deliver(1)] + [] == [Deliver(1)];
  }

  lemma Prepend(s: State, a: Step, rest: seq<Step>)
    ensures ExecFrom(s, [a] + rest) == ExecFrom(Next(s, a), rest)
  {
    assert ([a] + rest)[1..] == rest;
  }
}
