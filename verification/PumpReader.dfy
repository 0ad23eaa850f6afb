/** Whether the pipe still has a reader once the pump has finished: exactly when
    the relay can get rid of everything it accepted. */
module PumpReader {
  import opened Wrappers
  import opened Envelope
  import opened PumpLog
  import opened PumpSystem
  import opened PumpRuns
  import MP = MessagePipe

  /** Steps of the relay and of the reader that the cancel branch leaves behind. */
  predicate Relays(a: Label) { a.Discard? || (a.Pipe? && (a.a.Kick? || a.a.Enter? || a.a.Wake?)) }

  ghost predicate After(s: Sys) { s.pc.Finished? && s.pipe.closed && MP.Inv(s.pipe) }

  predicate Undelivered(s: Sys) { s.pipe.delivered != s.pipe.accepted }

  lemma DoneDelivers(s: Sys)
    requires MP.Inv(s.pipe)
    ensures s.pipe.relay.Done? ==> !Undelivered(s)
    ensures !Undelivered(s) ==> s.pipe.q == [] && !s.pipe.relay.Holding?
  {
    var d := s.pipe.delivered;
    assert |d + MP.InFlight(s.pipe) + s.pipe.q| == |d| + |MP.InFlight(s.pipe)| + |s.pipe.q|;
    if s.pipe.relay.Done? {
      assert d + [] + [] == d;
    }
  }

  // ---------- with a reader, or nothing left to read ----------

  lemma RelayStep(cfg: Config, s: Sys, a: Label)
    requires After(s) && Relays(a) && Next(cfg, s, a).Some?
    ensures var t := Next(cfg, s, a).value;
            After(t) && MP.Measure(t.pipe) < MP.Measure(s.pipe)
            && t.pipe.accepted == s.pipe.accepted && t.detached == s.detached
  {
    hide MP.Inv, MP.Measure;
    PipeStepInv(cfg, s, a);
    if a.Discard? {
      DeliverEnabled(s.pipe);
      MP.InternalDecreases(s.pipe, MP.Deliver);
    } else {
      MP.InternalDecreases(s.pipe, a.a);
    }
  }

  lemma NothingToDeliver(cfg: Config, s: Sys, a: Label)
    requires After(s) && Relays(a) && Next(cfg, s, a).Some? && !Undelivered(s)
    ensures !Undelivered(Next(cfg, s, a).value)
  {
    hide MP.Inv;
    DoneDelivers(s);
    PipeStepInv(cfg, s, a);
  }

  lemma RelayEnabled(cfg: Config, s: Sys)
    requires After(s) && (s.detached || !Undelivered(s)) && !s.pipe.relay.Done?
    ensures exists a :: Relays(a) && Next(cfg, s, a).Some?
  {
    DoneDelivers(s);
    var a :=
      match s.pipe.relay
      case Top => Pipe(MP.Enter)
      case Holding(_) => Discard
      case Waiting => if s.pipe.wake then Pipe(MP.Wake) else Pipe(MP.Kick)
      case Done => Discard;
    assert Relays(a) && Next(cfg, s, a).Some?;
  }

  /** With a reader left, or with nothing undelivered, the relay makes a bounded
      number of steps and can only stop done, with everything delivered. */
  lemma {:induction false} RelayMustEnd(cfg: Config, s: Sys, run: seq<Label>)
    requires After(s) && (s.detached || !Undelivered(s)) && Exec(cfg, s, run).Some?
    requires forall i :: 0 <= i < |run| ==> Relays(run[i])
    ensures |run| <= MP.Measure(s.pipe)
    ensures var t := Exec(cfg, s, run).value;
            (forall a :: Relays(a) ==> Next(cfg, t, a).None?) ==> t.pipe.relay.Done? && !Undelivered(t)
    decreases |run|
  {
    hide Next, Relays, After, Undelivered, MP.Measure;
    if run == [] {
      if !s.pipe.relay.Done? { RelayEnabled(cfg, s); }
      AfterInv(s);
      DoneDelivers(s);
    } else {
      assert Relays(run[0]);
      RelayStep(cfg, s, run[0]);
      if !Undelivered(s) { NothingToDeliver(cfg, s, run[0]); }
      RelayMustEnd(cfg, Next(cfg, s, run[0]).value, run[1..]);
    }
  }

  lemma AfterInv(s: Sys)
    requires After(s)
    ensures MP.Inv(s.pipe)
  {
  }

  /** Such an end exists. */
  lemma {:induction false} RelayCanEnd(cfg: Config, s: Sys) returns (run: seq<Label>)
    requires After(s) && (s.detached || !Undelivered(s))
    ensures Exec(cfg, s, run).Some? && Ended(Exec(cfg, s, run).value)
    decreases MP.Measure(s.pipe)
  {
    hide Next, Relays, After, Undelivered, MP.Measure;
    AfterInv(s);
    DoneDelivers(s);
    if s.pipe.relay.Done? {
      run := [];
    } else {
      RelayEnabled(cfg, s);
      var a :| Relays(a) && Next(cfg, s, a).Some?;
      RelayStep(cfg, s, a);
      if !Undelivered(s) { NothingToDeliver(cfg, s, a); }
      var rest := RelayCanEnd(cfg, Next(cfg, s, a).value);
      run := [a] + rest;
      assert run[1..] == rest;
    }
  }

  predicate Ended(s: Sys) { s.pipe.relay.Done? && !Undelivered(s) }

  // ---------- without a reader ----------

  lemma FinishedOutside(cfg: Config, s: Sys, a: Label)
    requires s.pc.Finished? && Next(cfg, s, a).Some?
    ensures Outside(a)
  {
    hide Finalize, Persist, Abort, Received, LeaveDrain, NoneArrived, NextOutside;
  }

  lemma ClosedPipe(p: Pipe, x: MP.PipeStep<AgentMessage>)
    requires p.closed && !x.Deliver? && MP.Next(p, x).Some?
    ensures var q := MP.Next(p, x).value; q.closed && q.delivered == p.delivered && q.accepted == p.accepted
  {
  }

  lemma UnreadStep(cfg: Config, s: Sys, a: Label)
    requires After(s) && !s.detached && Undelivered(s) && Next(cfg, s, a).Some?
    ensures var t := Next(cfg, s, a).value;
            After(t) && !t.detached && t.pipe.delivered == s.pipe.delivered && t.pipe.accepted == s.pipe.accepted
  {
    hide MP.Inv, MP.Next, NextPump;
    FinishedOutside(cfg, s, a);
    PipeStepInv(cfg, s, a);
    if a.Pipe? { ClosedPipe(s.pipe, a.a); }
  }

  /** With no reader and something undelivered, nothing is ever delivered again. */
  lemma {:induction false} UnreadForever(cfg: Config, s: Sys, run: seq<Label>)
    requires After(s) && !s.detached && Undelivered(s) && Exec(cfg, s, run).Some?
    ensures var t := Exec(cfg, s, run).value;
            t.pipe.delivered == s.pipe.delivered && t.pipe.accepted == s.pipe.accepted && !Ended(t)
    decreases |run|
  {
    hide Next, After;
    if run != [] {
      UnreadStep(cfg, s, run[0]);
      UnreadForever(cfg, Next(cfg, s, run[0]).value, run[1..]);
    }
  }

  ghost predicate CanEnd(cfg: Config, s: Sys) {
    exists run :: Exec(cfg, s, run).Some? && Ended(Exec(cfg, s, run).value)
  }

  /** Once the pump has finished and the pipe is closed, the relay can still end
      with everything delivered if and only if the pump left a reader behind or
      nothing is undelivered. */
  lemma RelayEndsExactly(cfg: Config, s: Sys)
    requires After(s)
    ensures CanEnd(cfg, s) <==> s.detached || !Undelivered(s)
  {
    hide After, Undelivered, Exec, Ended;
    if s.detached || !Undelivered(s) {
      var run := RelayCanEnd(cfg, s);
    } else if CanEnd(cfg, s) {
      var run :| Exec(cfg, s, run).Some? && Ended(Exec(cfg, s, run).value);
      UnreadForever(cfg, s, run);
    }
  }

  // ---------- which arms of the pump leave no reader ----------

  /** The pump stops reading without leaving a reader and without having seen the
      end of the messages: the drain after a result times out, an insert fails
      outside the cancel branch, or the result channel is closed empty. */
  predicate Abandons(cfg: Config, s: Sys, a: Label) {
    Reading(s.pc) &&
    match a
    case DrainTimeout => s.pc.ResultDrain?
    case TakeEmpty => true
    case Tick(_, io) => !io.inserted
    case Recv(io1, io2) =>
      !s.pc.CancelDrain? && s.pipe.relay.Holding? && !OnMessage(cfg, s.log, s.pipe.relay.message, io1, io2).1
    case _ => false
  }

  predicate Abandoned(cfg: Config, s: Sys, run: seq<Label>)
    decreases |run|
  {
    run != [] && Next(cfg, s, run[0]).Some?
    && (Abandons(cfg, s, run[0]) || Abandoned(cfg, Next(cfg, s, run[0]).value, run[1..]))
  }

  /** A step out of reading that is no abandoning leaves a reader or has seen the end. */
  predicate Accounted(cfg: Config, s: Sys, a: Label, t: Sys) {
    if Abandons(cfg, s, a) then !Reading(t.pc) && !t.detached
    else if Reading(t.pc) then !t.detached
    else t.detached || t.pipe.relay.Done?
  }

  lemma ReadingStep(cfg: Config, s: Sys, a: Label)
    requires Reading(s.pc) && !s.detached && Next(cfg, s, a).Some?
    ensures Accounted(cfg, s, a, Next(cfg, s, a).value)
  {
    hide Next, Abandons, Reading;
    if Outside(a) { OutsideReads(cfg, s, a); } else { PumpReads(cfg, s, a); }
  }

  lemma PumpReads(cfg: Config, s: Sys, a: Label)
    requires Reading(s.pc) && !s.detached && !Outside(a) && Next(cfg, s, a).Some?
    ensures Accounted(cfg, s, a, Next(cfg, s, a).value)
  {
    hide *;
    match a {
      case Recv(io1, io2) => RecvReads(cfg, s, io1, io2);
      case Tick(ms, io) => TickReads(cfg, s, ms, io);
      case _ => ControlReads(cfg, s, a);
    }
  }

  lemma RecvReads(cfg: Config, s: Sys, io1: Io, io2: Io)
    requires Reading(s.pc) && !s.detached && Next(cfg, s, Recv(io1, io2)).Some?
    ensures Accounted(cfg, s, Recv(io1, io2), Next(cfg, s, Recv(io1, io2)).value)
  {
    hide MP.Next, OnMessage, Received, NextOutside;
    ReceivedReader(cfg, s, io1, io2);
  }

  lemma TickReads(cfg: Config, s: Sys, ms: int, io: Io)
    requires Reading(s.pc) && !s.detached && Next(cfg, s, Tick(ms, io)).Some?
    ensures Accounted(cfg, s, Tick(ms, io), Next(cfg, s, Tick(ms, io)).value)
  {
    hide Abort, NextOutside, Persist;
    TickPersists(s.log, ms, io);
  }

  /** The arms that are neither a message nor a heartbeat. */
  lemma ControlReads(cfg: Config, s: Sys, a: Label)
    requires Reading(s.pc) && !s.detached && !Outside(a) && !a.Recv? && !a.Tick? && Next(cfg, s, a).Some?
    ensures Accounted(cfg, s, a, Next(cfg, s, a).value)
  {
    hide *;
    LaterArms(cfg, s, a);
    ArmReads(cfg, s, a);
  }

  lemma LaterArms(cfg: Config, s: Sys, a: Label)
    requires Reading(s.pc)
    ensures a.WaitResult? || a.WaitEmpty? || a.WaitTimeout? || a.EndStream? ==> Next(cfg, s, a).None?
    ensures Outside(a) || a.Recv? || a.Tick? || a.SeeCancel? || a.SeeClosed? || a.TakeResult?
           || a.TakeEmpty? || a.DrainTimeout?
         || a.WaitResult? || a.WaitEmpty? || a.WaitTimeout? || a.EndStream?
  {
    hide NextOutside, Received, Finalize, Persist, Abort;
  }

  /** Where the arms lead that handle neither a message nor a heartbeat. */
  lemma ArmGoes(cfg: Config, s: Sys, a: Label)
    requires a.SeeCancel? || a.SeeClosed? || a.TakeResult? || a.TakeEmpty? || a.DrainTimeout?
    requires Reading(s.pc) && Next(cfg, s, a).Some?
    ensures var t := Next(cfg, s, a).value;
            && t.pipe == s.pipe
            && (a.SeeCancel? ==> t == s.(pc := CancelDrain))
            && (a.SeeClosed? ==> s.pipe.relay.Done? && (t == s.(pc := ClosedWait) || t == LeaveDrain(s)))
            && (a.TakeResult? ==> t.pc.ResultDrain? && t.detached == s.detached)
            && (a.TakeEmpty? ==> t.pc.Ending? && t.detached == s.detached)
            && (a.DrainTimeout? ==> (s.pc.CancelDrain? || s.pc.ResultDrain?) && t == LeaveDrain(s))
  {
    hide NextOutside, Received, Finalize, Persist, Abort, LeaveDrain;
  }

  lemma ArmReads(cfg: Config, s: Sys, a: Label)
    requires a.SeeCancel? || a.SeeClosed? || a.TakeResult? || a.TakeEmpty? || a.DrainTimeout?
    requires Reading(s.pc) && !s.detached && Next(cfg, s, a).Some?
    ensures Accounted(cfg, s, a, Next(cfg, s, a).value)
  {
    hide Next, OnMessage;
    ArmGoes(cfg, s, a);
  }

  lemma AbandonsKinds(cfg: Config, s: Sys, a: Label)
    requires Reading(s.pc)
    ensures a.Tick? ==> (Abandons(cfg, s, a) <==> !a.io.inserted)
    ensures a.Recv? && s.pipe.relay.Holding? ==>
      (Abandons(cfg, s, a) <==> !s.pc.CancelDrain? && !OnMessage(cfg, s.log, s.pipe.relay.message, a.io1, a.io2).1)
    ensures !a.Tick? && !a.Recv? ==> (Abandons(cfg, s, a) <==> (a.DrainTimeout? && s.pc.ResultDrain?) || a.TakeEmpty?)
  {
    hide OnMessage;
  }

  lemma OutsideReads(cfg: Config, s: Sys, a: Label)
    requires Reading(s.pc) && Outside(a) && Next(cfg, s, a).Some?
    ensures Next(cfg, s, a).value.pc == s.pc && Next(cfg, s, a).value.detached == s.detached && !Abandons(cfg, s, a)
  {
    hide *;
    OutsideKeeps(cfg, s, a);
    OutsideKinds(a);
    AbandonsKinds(cfg, s, a);
  }

  lemma OutsideKinds(a: Label)
    ensures Outside(a) ==> !a.Tick? && !a.Recv? && !a.DrainTimeout? && !a.TakeEmpty?
  {
  }

  lemma OutsideKeeps(cfg: Config, s: Sys, a: Label)
    requires Outside(a) && Next(cfg, s, a).Some?
    ensures Next(cfg, s, a).value.pc == s.pc && Next(cfg, s, a).value.detached == s.detached
  {
    hide NextOutside, NextPump, Outside;
  }

  lemma TickPersists(l: Log, ms: int, io: Io)
    ensures Persist(l, Heartbeat(ms), io).1 == io.inserted
  {
  }

  lemma ReceivedReader(cfg: Config, s: Sys, io1: Io, io2: Io)
    requires Reading(s.pc) && !s.detached && s.pipe.relay.Holding?
    ensures var t := Received(cfg, s, io1, io2);
            var ok := OnMessage(cfg, s.log, s.pipe.relay.message, io1, io2).1;
            && t.detached == (!ok && s.pc.CancelDrain?)
            && t.pc == if ok then s.pc else if s.pc.CancelDrain? then CancelWait else Finished
  {
    hide MP.Next, OnMessage, Abort;
  }

  lemma LeftStep(cfg: Config, s: Sys, a: Label)
    requires !Reading(s.pc) && Next(cfg, s, a).Some?
    ensures var t := Next(cfg, s, a).value;
            !Reading(t.pc) && t.detached == s.detached && (s.pipe.relay.Done? ==> t.pipe.relay.Done?)
  {
    hide Finalize, Persist, OnMessage, Abort, Received, MP.Next, LeaveDrain, NoneArrived;
    if Outside(a) {
      OutsideKeeps(cfg, s, a);
      OutsideRelay(cfg, s, a);
    }
  }

  lemma OutsideRelay(cfg: Config, s: Sys, a: Label)
    requires Outside(a) && Next(cfg, s, a).Some?
    ensures s.pipe.relay.Done? ==> Next(cfg, s, a).value.pipe.relay.Done?
  {
    hide MP.Next, NextPump;
    if a.Pipe? { PipeKeeps(s.pipe, a.a); }
  }

  lemma {:induction false} LeftRun(cfg: Config, s: Sys, run: seq<Label>)
    requires !Reading(s.pc) && Exec(cfg, s, run).Some?
    ensures var t := Exec(cfg, s, run).value;
            !Reading(t.pc) && t.detached == s.detached && (s.pipe.relay.Done? ==> t.pipe.relay.Done?)
    ensures !Abandoned(cfg, s, run)
    decreases |run|
  {
    hide Next, Reading;
    if run != [] {
      LeftStep(cfg, s, run[0]);
      LeftRun(cfg, Next(cfg, s, run[0]).value, run[1..]);
    }
  }

  lemma {:induction false} ReadingRun(cfg: Config, s: Sys, run: seq<Label>)
    requires Reading(s.pc) && !s.detached && Exec(cfg, s, run).Some?
    ensures var t := Exec(cfg, s, run).value;
            if Abandoned(cfg, s, run) then !t.detached else Reading(t.pc) || t.detached || t.pipe.relay.Done?
    decreases |run|
  {
    hide Next, Reading, Abandons;
    if run != [] {
      var t := Next(cfg, s, run[0]).value;
      ReadingStep(cfg, s, run[0]);
      if Reading(t.pc) {
        AbandonsLeaves(cfg, s, run[0]);
        ReadingRun(cfg, t, run[1..]);
      } else {
        LeftRun(cfg, t, run[1..]);
      }
    }
  }

  lemma AbandonsLeaves(cfg: Config, s: Sys, a: Label)
    requires Reading(s.pc) && !s.detached && Next(cfg, s, a).Some? && Reading(Next(cfg, s, a).value.pc)
    ensures !Abandons(cfg, s, a)
  {
    hide Next, Abandons, Reading;
    ReadingStep(cfg, s, a);
  }

  /** Over whole runs: after a finished run with the pipe closed, the relay is
      stuck for good exactly when one of those three arms ended the reading and
      something accepted is undelivered. */
  lemma StuckExactly(cfg: Config, run: seq<Label>)
    requires Exec(cfg, Init, run).Some?
    requires Exec(cfg, Init, run).value.pc.Finished? && Exec(cfg, Init, run).value.pipe.closed
    ensures !CanEnd(cfg, Exec(cfg, Init, run).value)
            <==> Abandoned(cfg, Init, run) && Undelivered(Exec(cfg, Init, run).value)
  {
    hide Next, Abandoned, CanEnd, Undelivered, MP.Inv;
    var s := Exec(cfg, Init, run).value;
    InitInv();
    RegistryAlways(cfg, Init, run);
    ReadingRun(cfg, Init, run);
    DoneDelivers(s);
    RelayEndsExactly(cfg, s);
  }

  lemma InitInv()
    ensures MP.Inv(Init.pipe)
  {
    MP.FreshInv<AgentMessage>();
  }
}
