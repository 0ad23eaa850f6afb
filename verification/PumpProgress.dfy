/** When the stream ends, and what two unlucky runs look like. */
module PumpProgress {
  import opened Wrappers
  import opened Envelope
  import opened PumpLog
  import opened PumpSystem
  import opened PumpRuns
  import MP = MessagePipe

  /** Steps that move the stream towards its end, all but time and cancel. */
  predicate Drives(a: Label) {
    match a
    case Pipe(x) => x.Kick? || x.Enter? || x.Wake?
    case Recv(_, _) => true
    case SeeClosed => true
    case TakeResult => true
    case TakeEmpty => true
    case WaitResult => true
    case WaitEmpty => true
    case EndStream(_) => true
    case _ => false
  }

  function Rank(pc: Pc): nat {
    match pc
    case Select => 4
    case CancelDrain => 3
    case ResultDrain(_) => 3
    case CancelWait => 2
    case ClosedWait => 2
    case Ending(_) => 1
    case Finished => 0
  }

  function Distance(s: Sys): nat { MP.Measure(s.pipe) + Rank(s.pc) }

  /** The backend has closed the pipe and has sent its one result or closed the
      result channel without one. */
  predicate BackendDone(s: Sys) { s.pipe.closed && !s.chan.Open? }

  lemma DriveStep(cfg: Config, s: Sys, a: Label)
    requires BackendDone(s) && Drives(a) && Next(cfg, s, a).Some?
    ensures BackendDone(Next(cfg, s, a).value) && Distance(Next(cfg, s, a).value) < Distance(s)
  {
    hide OnMessage, Finalize, Persist, Abort, Received, MP.Next, MP.Measure, NoneArrived;
    if a.Pipe? {
      MP.InternalDecreases(s.pipe, a.a);
    } else if a.Recv? {
      RecvDrives(cfg, s, a.io1, a.io2);
    } else {
      ControlDrives(cfg, s, a);
    }
  }

  lemma ControlDrives(cfg: Config, s: Sys, a: Label)
    requires BackendDone(s) && Drives(a) && !a.Pipe? && !a.Recv? && Next(cfg, s, a).Some?
    ensures var t := Next(cfg, s, a).value; BackendDone(t) && t.pipe == s.pipe && Rank(t.pc) < Rank(s.pc)
  {
    hide *;
    match a {
      case SeeClosed => SeeClosedDrives(cfg, s);
      case TakeResult => TakeDrives(cfg, s, a);
      case TakeEmpty => TakeDrives(cfg, s, a);
      case WaitResult => WaitDrives(cfg, s, a);
      case WaitEmpty => WaitDrives(cfg, s, a);
      case EndStream(io) => EndDrives(cfg, s, io);
      case _ => DriveKinds(a);
    }
  }

  lemma DriveKinds(a: Label)
    ensures Drives(a) ==>
      a.Pipe? || a.Recv? || a.SeeClosed? || a.TakeResult? || a.TakeEmpty?
      || a.WaitResult? || a.WaitEmpty? || a.EndStream?
  {
  }

  lemma SeeClosedDrives(cfg: Config, s: Sys)
    requires BackendDone(s) && Next(cfg, s, SeeClosed).Some?
    ensures var t := Next(cfg, s, SeeClosed).value; BackendDone(t) && t.pipe == s.pipe && Rank(t.pc) < Rank(s.pc)
  {
    hide LeaveDrain, MP.Next;
    if s.pc.CancelDrain? || s.pc.ResultDrain? { LeaveDrives(s); }
  }

  lemma LeaveDrives(s: Sys)
    requires BackendDone(s) && (s.pc.CancelDrain? || s.pc.ResultDrain?)
    ensures BackendDone(LeaveDrain(s)) && Rank(LeaveDrain(s).pc) < Rank(s.pc)
  {
  }

  lemma TakeDrives(cfg: Config, s: Sys, a: Label)
    requires BackendDone(s) && (a.TakeResult? || a.TakeEmpty?) && Next(cfg, s, a).Some?
    ensures var t := Next(cfg, s, a).value; BackendDone(t) && t.pipe == s.pipe && Rank(t.pc) < Rank(s.pc)
  {
  }

  lemma WaitDrives(cfg: Config, s: Sys, a: Label)
    requires BackendDone(s) && (a.WaitResult? || a.WaitEmpty?) && Next(cfg, s, a).Some?
    ensures var t := Next(cfg, s, a).value; BackendDone(t) && t.pipe == s.pipe && Rank(t.pc) < Rank(s.pc)
  {
  }

  lemma EndDrives(cfg: Config, s: Sys, io: Io)
    requires BackendDone(s) && Next(cfg, s, EndStream(io)).Some?
    ensures var t := Next(cfg, s, EndStream(io)).value; BackendDone(t) && t.pipe == s.pipe && Rank(t.pc) < Rank(s.pc)
  {
    hide Finalize;
  }

  lemma RecvDrives(cfg: Config, s: Sys, io1: Io, io2: Io)
    requires BackendDone(s) && Reading(s.pc) && s.pipe.relay.Holding?
    ensures BackendDone(Received(cfg, s, io1, io2)) && Distance(Received(cfg, s, io1, io2)) < Distance(s)
  {
    hide OnMessage, Abort, MP.Next;
    DeliverEnabled(s.pipe);
    MP.InternalDecreases(s.pipe, MP.Deliver);
    ReceivedPc(cfg, s, io1, io2);
  }

  lemma ReceivedPc(cfg: Config, s: Sys, io1: Io, io2: Io)
    requires Reading(s.pc) && s.pipe.relay.Holding?
    ensures var t := Received(cfg, s, io1, io2);
            && t.pipe == MP.Next(s.pipe, MP.Deliver).value && t.chan == s.chan
            && (t.pc == s.pc || t.pc.Finished? || (s.pc.CancelDrain? && t.pc.CancelWait?))
  {
    hide Received, MP.Next;
  }

  lemma DriveEnabled(cfg: Config, s: Sys)
    requires BackendDone(s) && MP.Inv(s.pipe) && !s.pc.Finished?
    ensures exists a :: Drives(a) && Next(cfg, s, a).Some?
  {
    hide OnMessage, Finalize, Persist, Abort, Received;
    var io := Io(true, true);
    var a :=
      if s.pc.Ending? then EndStream(io)
      else if Waiting(s.pc) then (if s.chan.Buffered? then WaitResult else WaitEmpty)
      else match s.pipe.relay
        case Done => SeeClosed
        case Holding(_) => Recv(io, io)
        case Top => Pipe(MP.Enter)
        case Waiting => if s.pipe.wake then Pipe(MP.Wake) else Pipe(MP.Kick);
    assert Drives(a) && Next(cfg, s, a).Some?;
  }

  /** Once the backend is done, the stream takes at most `Distance` further
      steps, and can only stop when the pump has finished. */
  lemma {:induction false} StreamEnds(cfg: Config, s: Sys, run: seq<Label>)
    requires BackendDone(s) && MP.Inv(s.pipe) && Exec(cfg, s, run).Some?
    requires forall i :: 0 <= i < |run| ==> Drives(run[i])
    ensures |run| <= Distance(s)
    ensures (forall a :: Drives(a) ==> Next(cfg, Exec(cfg, s, run).value, a).None?)
            ==> Exec(cfg, s, run).value.pc.Finished?
    decreases |run|
  {
    hide Next, Drives, Distance, BackendDone, MP.Inv;
    if run == [] {
      if !s.pc.Finished? { DriveEnabled(cfg, s); }
    } else {
      assert Drives(run[0]);
      DriveStep(cfg, s, run[0]);
      PipeStepInv(cfg, s, run[0]);
      StreamEnds(cfg, Next(cfg, s, run[0]).value, run[1..]);
    }
  }

  // ---------- the cancel drain can leave a gap ----------

  const Good := Io(true, true)
  const Bad := Io(false, false)

  /** One message in the pipe, a user cancel, and a failed insert in the drain. */
  function GapRun(m: AgentMessage): seq<Label> {
    [Pipe(MP.Send(m)), Pipe(MP.Enter), UserCancel, Fire, SeeCancel, Recv(Bad, Bad), WaitTimeout, EndStream(Good)]
  }

  /** In the cancel branch a failed insert is swallowed: the log then has a gap
      and still ends with session_ended. */
  lemma CancelGap(cfg: Config, m: AgentMessage)
    requires m.kind != ""
    ensures Exec(cfg, Init, GapRun(m)).Some?
    ensures var l := Exec(cfg, Init, GapRun(m)).value.log;
            |l.rows| == 2 && l.rows[0].seqNo == 0 && l.rows[1].seqNo == 2 && HasEnd(l)
  {
    hide Exec, Next;
    var front := [Pipe(MP.Send(m)), Pipe(MP.Enter), UserCancel, Fire, SeeCancel];
    var s := DrainWith(cfg, m);
    var s1, s2, s3 := SwallowedEnd(cfg, s, m);
    ExecSnoc(cfg, Init, front, s, Recv(Bad, Bad), s1);
    ExecSnoc(cfg, Init, front + [Recv(Bad, Bad)], s1, WaitTimeout, s2);
    ExecSnoc(cfg, Init, front + [Recv(Bad, Bad)] + [WaitTimeout], s2, EndStream(Good), s3);
    assert GapRun(m) == front + [Recv(Bad, Bad)] + [WaitTimeout] + [EndStream(Good)];
  }

  /** A message is in the relay's hands and the pump in its cancel drain. */
  lemma DrainWith(cfg: Config, m: AgentMessage) returns (s: Sys)
    ensures Exec(cfg, Init, [Pipe(MP.Send(m)), Pipe(MP.Enter), UserCancel, Fire, SeeCancel]) == Some(s)
    ensures s.pc.CancelDrain? && s.pipe.relay == MP.Holding(m) && s.log == Start && !s.shutdown
  {
    hide Exec, NextPump;
    var s1 := Next(cfg, Init, Pipe(MP.Send(m))).value;
    assert [] + [m] == [m] && s1.pipe.q == [m];
    var s2 := Next(cfg, s1, Pipe(MP.Enter)).value;
    var s3 := Next(cfg, s2, UserCancel).value;
    var s4 := Next(cfg, s3, Fire).value;
    s := SeesCancel(cfg, s4);
    var r := [Pipe(MP.Send(m)), Pipe(MP.Enter), UserCancel, Fire, SeeCancel];
    assert r[5..] == [] && r[0..] == r;
    ExecEnd(cfg, s);
    ExecFrom(cfg, s4, r, 4, s);
    ExecFrom(cfg, s3, r, 3, s4);
    ExecFrom(cfg, s2, r, 2, s3);
    ExecFrom(cfg, s1, r, 1, s2);
    ExecFrom(cfg, Init, r, 0, s1);
  }

  lemma SeesCancel(cfg: Config, s: Sys) returns (t: Sys)
    requires s.pc.Select? && s.cancelled
    ensures Next(cfg, s, SeeCancel) == Some(t) && t == s.(pc := CancelDrain)
  {
    hide NextOutside;
    t := s.(pc := CancelDrain);
  }

  lemma ExecEnd(cfg: Config, s: Sys)
    ensures Exec(cfg, s, []) == Some(s)
  {
  }

  /** The drain swallows the failed insert, and the stream ends in order. */
  lemma SwallowedEnd(cfg: Config, s: Sys, m: AgentMessage) returns (s1: Sys, s2: Sys, s3: Sys)
    requires s.pc.CancelDrain? && s.pipe.relay == MP.Holding(m) && s.log == Start && !s.shutdown && m.kind != ""
    ensures Next(cfg, s, Recv(Bad, Bad)) == Some(s1) && Next(cfg, s1, WaitTimeout) == Some(s2)
    ensures Next(cfg, s2, EndStream(Good)) == Some(s3)
    ensures |s3.log.rows| == 2 && s3.log.rows[0].seqNo == 0 && s3.log.rows[1].seqNo == 2 && HasEnd(s3.log)
  {
    hide Next, Received, Finalize;
    SwallowedInsert(cfg, s, m);
    s1 := Received(cfg, s, Bad, Bad);
    s2 := NoneArrived(s1);
    WaitOver(cfg, s1);
    EndRow(s2.log, Disconnected);
    EndStep(cfg, s2);
    s3 := Next(cfg, s2, EndStream(Good)).value;
  }

  lemma SwallowedInsert(cfg: Config, s: Sys, m: AgentMessage)
    requires s.pc.CancelDrain? && s.pipe.relay == MP.Holding(m) && s.log == Start && !s.shutdown && m.kind != ""
    ensures Next(cfg, s, Recv(Bad, Bad)) == Some(Received(cfg, s, Bad, Bad))
    ensures var t := Received(cfg, s, Bad, Bad);
            t.log.nextSeq == 2 && t.log.rows == Start.rows && t.log.updates == [] && t.pc == CancelWait && !t.shutdown
  {
    hide NextOutside, Capped, MP.Next;
  }

  lemma WaitOver(cfg: Config, s: Sys)
    requires s.pc.CancelWait?
    ensures Next(cfg, s, WaitTimeout) == Some(NoneArrived(s)) && NoneArrived(s).pc == Ending(Disconnected)
  {
    hide NextOutside;
  }

  lemma EndStep(cfg: Config, s: Sys)
    requires s.pc.Ending? && !s.shutdown
    ensures Next(cfg, s, EndStream(Good)).Some?
    ensures Next(cfg, s, EndStream(Good)).value.log == Finalize(s.log, s.pc.result, false, Good)
  {
    hide NextOutside, Finalize;
  }

  lemma EndRow(l: Log, r: AgentResult)
    ensures var t := Finalize(l, r, false, Good);
            |t.rows| == |l.rows| + 1 && t.rows[..|l.rows|] == l.rows
            && t.rows[|l.rows|].seqNo == l.nextSeq && t.rows[|l.rows|].body.SessionEnded?
  {
    hide StatusFromAgentResult;
  }

  lemma ExecChain(cfg: Config, r: seq<Label>, s1: Sys, s2: Sys, s3: Sys, s4: Sys, s5: Sys, s6: Sys, s7: Sys, s8: Sys)
    requires |r| == 8
    requires Next(cfg, Init, r[0]) == Some(s1) && Next(cfg, s1, r[1]) == Some(s2) && Next(cfg, s2, r[2]) == Some(s3)
    requires Next(cfg, s3, r[3]) == Some(s4) && Next(cfg, s4, r[4]) == Some(s5) && Next(cfg, s5, r[5]) == Some(s6)
    requires Next(cfg, s6, r[6]) == Some(s7) && Next(cfg, s7, r[7]) == Some(s8)
    ensures Exec(cfg, Init, r) == Some(s8)
  {
    hide Next;
    ExecFrom(cfg, s7, r, 7, s8);
    assert Exec(cfg, s8, r[8..]) == Some(s8);
    ExecFrom(cfg, s6, r, 6, s7);
    ExecFrom(cfg, s5, r, 5, s6);
    ExecFrom(cfg, s4, r, 4, s5);
    ExecFrom(cfg, s3, r, 3, s4);
    ExecFrom(cfg, s2, r, 2, s3);
    ExecFrom(cfg, s1, r, 1, s2);
    ExecFrom(cfg, Init, r, 0, s1);
    assert r[0..] == r;
  }

  lemma ExecFrom(cfg: Config, s: Sys, r: seq<Label>, i: nat, t: Sys)
    requires i < |r| && Next(cfg, s, r[i]) == Some(t)
    ensures Exec(cfg, s, r[i..]) == Exec(cfg, t, r[i + 1..])
  {
    hide Next;
    assert r[i..][0] == r[i] && r[i..][1..] == r[i + 1..];
  }

  // ---------- a drain that times out can pin the relay ----------

  /** The result arrives while a message is in the relay's hands and the drain
      times out before taking it. */
  function PinRun(m: AgentMessage, r: AgentResult): seq<Label> {
    [Pipe(MP.Send(m)), Pipe(MP.Enter), SendResult(r), Pipe(MP.Close), TakeResult,
     DrainTimeout, EndStream(Good), Pipe(MP.Kick)]
  }

  predicate Pinned(s: Sys) { s.pc.Finished? && !s.detached && s.pipe.relay.Holding? }

  lemma PinnedStep(cfg: Config, s: Sys, a: Label)
    requires Pinned(s) && Next(cfg, s, a).Some?
    ensures Pinned(Next(cfg, s, a).value) && Next(cfg, s, a).value.pipe.delivered == s.pipe.delivered
  {
  }

  /** Only the cancel branch leaves a reader behind: after a result drain that
      timed out, the message the relay holds is never delivered. */
  lemma {:induction false} PinnedForever(cfg: Config, s: Sys, run: seq<Label>)
    requires Pinned(s) && Exec(cfg, s, run).Some?
    ensures Pinned(Exec(cfg, s, run).value) && Exec(cfg, s, run).value.pipe.delivered == s.pipe.delivered
    decreases |run|
  {
    hide Next, Pinned;
    if run != [] {
      PinnedStep(cfg, s, run[0]);
      PinnedForever(cfg, Next(cfg, s, run[0]).value, run[1..]);
    }
  }

  lemma PinReachable(cfg: Config, m: AgentMessage, r: AgentResult)
    ensures Exec(cfg, Init, PinRun(m, r)).Some? && Pinned(Exec(cfg, Init, PinRun(m, r)).value)
  {
    hide Exec, Finalize;
    var run := PinRun(m, r);
    var s1 := Next(cfg, Init, run[0]).value;
    var s2 := Next(cfg, s1, run[1]).value;
    assert s2.pipe.relay == MP.Holding(m);
    var s3 := Next(cfg, s2, run[2]).value;
    var s4 := Next(cfg, s3, run[3]).value;
    var s5 := Next(cfg, s4, run[4]).value;
    var s6 := Next(cfg, s5, run[5]).value;
    var s7 := Next(cfg, s6, run[6]).value;
    var s8 := Next(cfg, s7, run[7]).value;
    ExecChain(cfg, run, s1, s2, s3, s4, s5, s6, s7, s8);
  }
}
