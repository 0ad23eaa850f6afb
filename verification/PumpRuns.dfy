/** What whole runs of the stream deliver: losslessness, confluence, progress. */
module PumpRuns {
  import opened Wrappers
  import opened Envelope
  import opened PumpLog
  import opened Strings
  import opened Utf8
  import opened PumpSystem
  import MP = MessagePipe

  // ---------- pipe and registry, in every run ----------

  /** A user cancel that came first is never turned into a shutdown, and a
      shutdown is always also a request. */
  ghost predicate RegistryInv(s: Sys) {
    && (s.userFirst ==> s.requested && !s.shutdown)
    && (s.shutdown ==> s.requested)
    && s.fires <= 1 && (s.fires == 1 ==> s.requested)
  }

  lemma RegistryStep(cfg: Config, s: Sys, a: Label)
    requires RegistryInv(s) && Next(cfg, s, a).Some?
    ensures RegistryInv(Next(cfg, s, a).value)
    ensures s.shutdown ==> Next(cfg, s, a).value.shutdown
  {
    hide *;
    if Outside(a) { RegistryOutside(cfg, s, a); } else { RegistryPump(cfg, s, a); }
  }

  lemma RegistryOutside(cfg: Config, s: Sys, a: Label)
    requires RegistryInv(s) && Outside(a) && Next(cfg, s, a).Some?
    ensures RegistryInv(Next(cfg, s, a).value)
    ensures s.shutdown ==> Next(cfg, s, a).value.shutdown
  {
    hide MP.Next, NextPump;
  }

  lemma RegistryPump(cfg: Config, s: Sys, a: Label)
    requires RegistryInv(s) && !Outside(a) && Next(cfg, s, a).Some?
    ensures RegistryInv(Next(cfg, s, a).value)
    ensures s.shutdown ==> Next(cfg, s, a).value.shutdown
  {
    hide MP.Next, OnMessage, Finalize, Persist, Abort, Received, NoneArrived, LeaveDrain, Reading, Waiting, NextOutside;
    hide Announces, EndStatus;
    if a.Recv? { ReceivedRegistry(cfg, s, a.io1, a.io2); }
  }

  /** Cancel and shutdown flags are moved by the registry alone. */
  predicate SameRegistry(s: Sys, t: Sys) {
    s.requested == t.requested && s.shutdown == t.shutdown && s.fires == t.fires && s.userFirst == t.userFirst
  }

  lemma ReceivedRegistry(cfg: Config, s: Sys, io1: Io, io2: Io)
    requires Reading(s.pc) && s.pipe.relay.Holding?
    ensures SameRegistry(s, Received(cfg, s, io1, io2))
  {
    hide Received;
  }

  lemma PipeStepInv(cfg: Config, s: Sys, a: Label)
    requires MP.Inv(s.pipe) && Next(cfg, s, a).Some?
    ensures MP.Inv(Next(cfg, s, a).value.pipe)
  {
    hide MP.Next, MP.Inv, OnMessage, Finalize, Persist, Abort, LeaveDrain, NoneArrived, Received;
    if a.Pipe? {
      MP.StepInv(s.pipe, a.a);
    } else if a.Recv? || a.Discard? {
      DeliverEnabled(s.pipe);
      MP.StepInv(s.pipe, MP.Deliver);
    }
  }

  lemma DeliverEnabled(p: Pipe)
    requires p.relay.Holding?
    ensures MP.Next(p, MP.Deliver) == Some(p.(delivered := p.delivered + [p.relay.message], relay := MP.Top))
  {
  }

  lemma {:induction false} RegistryAlways(cfg: Config, s: Sys, run: seq<Label>)
    requires RegistryInv(s) && MP.Inv(s.pipe) && Exec(cfg, s, run).Some?
    ensures RegistryInv(Exec(cfg, s, run).value) && MP.Inv(Exec(cfg, s, run).value.pipe)
    ensures s.shutdown ==> Exec(cfg, s, run).value.shutdown
    decreases |run|
  {
    hide Next, MP.Inv, RegistryInv;
    if run != [] {
      RegistryStep(cfg, s, run[0]);
      PipeStepInv(cfg, s, run[0]);
      RegistryAlways(cfg, Next(cfg, s, run[0]).value, run[1..]);
    }
  }

  /** A session marked as shutdown before its stream is finalised never ends as
      `cancelled`, whatever the backend reports. */
  lemma ShutdownNeverCancelled(cfg: Config, s: Sys, io: Io)
    requires s.pc.Ending? && s.shutdown && s.log.updates == []
    ensures var t := Next(cfg, s, EndStream(io)).value;
            |t.log.updates| == 1 && t.log.updates[0].status != "cancelled"
  {
    hide StatusFromAgentResult;
  }

  /** The same over whole runs: once the shutdown mark is set, wherever the stream
      then is, its end is not `cancelled`. */
  lemma ShutdownRun(cfg: Config, before: seq<Label>, after: seq<Label>, io: Io)
    requires Exec(cfg, Init, before).Some? && Exec(cfg, Init, before).value.shutdown
    requires Exec(cfg, Exec(cfg, Init, before).value, after).Some?
    requires Exec(cfg, Exec(cfg, Init, before).value, after).value.pc.Ending?
    ensures var s := Exec(cfg, Exec(cfg, Init, before).value, after).value;
            var t := Next(cfg, s, EndStream(io)).value;
            |t.log.updates| == 1 && t.log.updates[0].status != "cancelled"
  {
    hide Next, MP.Inv;
    var s1 := Exec(cfg, Init, before).value;
    assert MP.Inv(MP.Fresh<AgentMessage>()) by { MP.FreshInv<AgentMessage>(); }
    RegistryAlways(cfg, Init, before);
    RegistryAlways(cfg, s1, after);
    LogDiscipline(cfg, before);
    LogAlways(cfg, s1, after);
    ShutdownNeverCancelled(cfg, Exec(cfg, s1, after).value, io);
  }

  // ---------- runs without cancel, timeout or insert failure ----------

  predicate Smooth(a: Label) {
    match a
    case SeeCancel => false
    case DrainTimeout => false
    case WaitTimeout => false
    case CloseResult => false
    case Tick(_, io) => io.inserted
    case Recv(io1, io2) => io1.inserted && io2.inserted
    case EndStream(io) => io.inserted
    case _ => true
  }

  predicate AllSmooth(run: seq<Label>) { forall i :: 0 <= i < |run| ==> Smooth(run[i]) }

  /** The first nonempty backend session id among the messages. */
  function FirstSession(ms: seq<AgentMessage>): string {
    if ms == [] then ""
    else
      var before := FirstSession(ms[..|ms| - 1]);
      if before != "" then before else ms[|ms| - 1].sessionId
  }

  function EndBody(ms: seq<AgentMessage>, r: AgentResult, shutdown: bool): Body {
    var (status, error) := EndStatus(r, shutdown);
    SessionEnded(status, error, |r.output|, if r.sessionId != "" then r.sessionId else FirstSession(ms))
  }

  /** The log of a finished run, as a function of what was taken in. */
  function FinalRows(cfg: Config, items: seq<Item>, r: AgentResult, shutdown: bool): seq<Line> {
    var rows := FirstRow() + Expand(cfg, items);
    rows + [Line(|rows|, EndBody(Messages(items), r, shutdown))]
  }

  ghost predicate SmoothInv(cfg: Config, s: Sys) {
    && MP.Inv(s.pipe)
    && !s.failed && !s.swallowed && !s.detached
    && s.pipe.delivered == Messages(s.items)
    && s.log.bsid == FirstSession(Messages(s.items))
    && (s.chan.Open? ==> s.sent.None?)
    && (s.chan.Buffered? ==> s.sent == Some(s.chan.result))
    && (match s.pc
        case Select => s.chan != Empty
        case ClosedWait => s.chan != Empty && s.pipe.relay.Done?
        case ResultDrain(r) => s.sent == Some(r)
        case Ending(r) => s.sent == Some(r) && s.pipe.relay.Done?
        case Finished => s.sent.Some? && s.pipe.relay.Done?
        case _ => false)
    && (if s.pc.Finished? then
          && s.log.rows == FinalRows(cfg, s.items, s.sent.value, s.endedDown)
          && s.log.updates == [FinalUpdate(s.sent.value, s.endedDown)]
        else
          && s.log.rows == FirstRow() + Expand(cfg, s.items) && s.log.nextSeq == |s.log.rows|
          && s.log.updates == [])
  }

  function FinalUpdate(r: AgentResult, shutdown: bool): Update {
    Update(EndStatus(r, shutdown).0, EndStatus(r, shutdown).1)
  }

  lemma OnMessageSmooth(cfg: Config, l: Log, items: seq<Item>, m: AgentMessage, io1: Io, io2: Io)
    requires l.rows == FirstRow() + Expand(cfg, items) && l.nextSeq == |l.rows|
    requires l.bsid == FirstSession(Messages(items))
    requires io1.inserted && io2.inserted
    ensures OnMessage(cfg, l, m, io1, io2).1
    ensures var l' := OnMessage(cfg, l, m, io1, io2).0;
            && l'.rows == FirstRow() + Expand(cfg, items + [Msg(m)]) && l'.nextSeq == |l'.rows|
            && l'.bsid == FirstSession(Messages(items + [Msg(m)])) && l'.updates == l.updates
  {
    hide OnMessage, Expand, Block, FirstSession, Messages;
    ExpandSnoc(cfg, items, Msg(m));
    FirstSessionSnoc(Messages(items), m);
    OnMessageRows(cfg, l, m, io1, io2);
    var b := Block(cfg, l.nextSeq, Msg(m));
    assert (FirstRow() + Expand(cfg, items)) + b == FirstRow() + (Expand(cfg, items) + b);
  }

  lemma OnMessageRows(cfg: Config, l: Log, m: AgentMessage, io1: Io, io2: Io)
    requires io1.inserted && io2.inserted
    ensures OnMessage(cfg, l, m, io1, io2).1
    ensures var l' := OnMessage(cfg, l, m, io1, io2).0;
            && l'.rows == l.rows + Block(cfg, l.nextSeq, Msg(m))
            && l'.nextSeq == l.nextSeq + |Block(cfg, l.nextSeq, Msg(m))|
            && l'.bsid == (if l.bsid != "" then l.bsid else m.sessionId) && l'.updates == l.updates
  {
    hide Capped;
  }

  lemma FirstSessionSnoc(ms: seq<AgentMessage>, m: AgentMessage)
    ensures FirstSession(ms + [m]) == if FirstSession(ms) != "" then FirstSession(ms) else m.sessionId
  {
    assert (ms + [m])[..|ms|] == ms;
  }

  lemma SmoothRecv(cfg: Config, s: Sys, io1: Io, io2: Io)
    requires SmoothInv(cfg, s) && Reading(s.pc) && s.pipe.relay.Holding?
    requires io1.inserted && io2.inserted
    ensures SmoothInv(cfg, Received(cfg, s, io1, io2))
  {
    hide OnMessage, Expand, Messages, FirstSession, MP.Inv, MP.Next, FinalRows;
    var m := s.pipe.relay.message;
    OnMessageSmooth(cfg, s.log, s.items, m, io1, io2);
    DeliverEnabled(s.pipe);
    MP.StepInv(s.pipe, MP.Deliver);
    ExpandSnoc(cfg, s.items, Msg(m));
  }

  lemma SmoothTick(cfg: Config, s: Sys, ms: int, io: Io)
    requires SmoothInv(cfg, s) && s.pc.Select? && io.inserted
    ensures SmoothInv(cfg, Next(cfg, s, Tick(ms, io)).value)
  {
    hide Expand, Messages, FirstSession, MP.Inv, FinalRows;
    ExpandSnoc(cfg, s.items, Beat(ms));
    var b := Block(cfg, s.log.nextSeq, Beat(ms));
    assert (FirstRow() + Expand(cfg, s.items)) + b == FirstRow() + (Expand(cfg, s.items) + b);
    assert Messages(s.items) + [] == Messages(s.items);
  }

  lemma SmoothEnd(cfg: Config, s: Sys, io: Io)
    requires SmoothInv(cfg, s) && s.pc.Ending? && io.inserted
    ensures SmoothInv(cfg, Next(cfg, s, EndStream(io)).value)
  {
    hide Expand, Messages, FirstSession, MP.Inv, StatusFromAgentResult;
    var t := Next(cfg, s, EndStream(io)).value;
    var r := s.sent.value;
    var last := Line(|s.log.rows|, EndBody(Messages(s.items), r, s.shutdown));
    assert t.log.rows == s.log.rows + [last];
    assert t.log.rows[|t.log.rows| - 1] == last;
  }

  lemma SmoothStep(cfg: Config, s: Sys, a: Label)
    requires SmoothInv(cfg, s) && Smooth(a) && Next(cfg, s, a).Some?
    ensures SmoothInv(cfg, Next(cfg, s, a).value)
  {
    hide Expand, Messages, FirstSession, FinalRows, MP.Inv, EndBody, FinalUpdate;
    hide OnMessage, Persist, Finalize, Abort, Received, MP.Next;
    match a {
      case Pipe(x) =>
        MP.StepInv(s.pipe, x);
        PipeKeeps(s.pipe, x);
      case Tick(ms, io) => SmoothTick(cfg, s, ms, io);
      case Recv(io1, io2) => SmoothRecv(cfg, s, io1, io2);
      case EndStream(io) => SmoothEnd(cfg, s, io);
      case _ =>
    }
  }

  lemma PipeKeeps(p: Pipe, x: MP.PipeStep<AgentMessage>)
    requires !x.Deliver? && MP.Next(p, x).Some?
    ensures MP.Next(p, x).value.delivered == p.delivered
    ensures p.relay.Done? ==> MP.Next(p, x).value.relay.Done?
  {
  }

  lemma {:induction false} SmoothAlways(cfg: Config, s: Sys, run: seq<Label>)
    requires SmoothInv(cfg, s) && AllSmooth(run) && Exec(cfg, s, run).Some?
    ensures SmoothInv(cfg, Exec(cfg, s, run).value)
    decreases |run|
  {
    hide SmoothInv, Next, Smooth;
    if run != [] {
      SmoothStep(cfg, s, run[0]);
      SmoothAlways(cfg, Next(cfg, s, run[0]).value, run[1..]);
    }
  }

  lemma InitSmooth(cfg: Config)
    ensures SmoothInv(cfg, Init)
  {
    MP.FreshInv<AgentMessage>();
    assert FirstRow() + Expand(cfg, []) == FirstRow();
  }

  /** Losslessness.  In every interleaving with no cancel, timeout or insert
      failure, the finished log is session_started, then exactly the messages
      accepted by Send, in order, each truncated one followed at once by one
      error row, with heartbeats between, then one session_ended that announces
      the backend's result, as the session row does. */
  lemma Lossless(cfg: Config, run: seq<Label>)
    requires AllSmooth(run) && Exec(cfg, Init, run).Some? && Exec(cfg, Init, run).value.pc.Finished?
    ensures var s := Exec(cfg, Init, run).value;
            && s.sent.Some? && Messages(s.items) == s.pipe.accepted
            && s.log.rows == FinalRows(cfg, s.items, s.sent.value, s.endedDown)
            && s.log.updates == [FinalUpdate(s.sent.value, s.endedDown)]
    ensures var s := Exec(cfg, Init, run).value;
            var rows := FirstRow() + Expand(cfg, s.items);
            && |s.log.rows| == |rows| + 1 && s.log.rows[..|rows|] == rows && s.log.rows[|rows|].seqNo == |rows|
            && |s.log.updates| == 1
            && Announces(s.log.rows[|rows|].body, s.log.updates[0], s.sent.value, s.endedDown,
                         FirstSession(s.pipe.accepted))
  {
    hide Next, Expand, Messages, Announces, EndBody, FinalUpdate;
    InitSmooth(cfg);
    SmoothAlways(cfg, Init, run);
    var s := Exec(cfg, Init, run).value;
    assert s.pipe.delivered + [] + [] == s.pipe.delivered;
    EndBodyAnnounces(Messages(s.items), s.sent.value, s.endedDown);
  }

  lemma EndBodyAnnounces(ms: seq<AgentMessage>, r: AgentResult, shutdown: bool)
    ensures Announces(EndBody(ms, r, shutdown), FinalUpdate(r, shutdown), r, shutdown, FirstSession(ms))
  {
    hide TrimSpace, FirstSession;
    BlankIsNoStatus();
  }

  /** The rows of one message: itself while its line has at most 1048576 bytes;
      otherwise a message that differs by cuts alone, and the notice. */
  lemma RowsOfMessage(cfg: Config, n: nat, m: AgentMessage) returns (q: MessagePayload)
    requires m.kind != "" && Valid(m.content) && Valid(m.output)
    ensures var p := PayloadOf(m);
            && q == p.(content := q.content, output := q.output, input := q.input)
            && q.content <= p.content && q.output <= p.output && (q.input == p.input || q.input == None)
            && Block(cfg, n, Msg(m))
               == if LineLen(cfg.codec, cfg.frame(n), p) <= 1048576 then [Line(n, Message(p))]
                  else [Line(n, Message(q)), Line(n + 1, Error("message_truncated", "Message content truncated"))]
  {
    hide Shrink, LineLen, Valid;
    var p := PayloadOf(m);
    q := Shrink(cfg.codec, cfg.frame(n), p, ATTEMPTS);
    ShrinkKeeps(cfg.codec, cfg.frame(n), p, ATTEMPTS);
  }
}
