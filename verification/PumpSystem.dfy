/** Backend, message pipe, cancel registry and pump of one exec stream, as a
    step relation.  Timeouts, write failures, insert failures, cancel, shutdown
    and every choice of the select are steps. */
module PumpSystem {
  import opened Sequences
  import opened Wrappers
  import opened Envelope
  import opened PumpLog
  import MP = MessagePipe

  type Pipe = MP.Pipe<AgentMessage>

  /** The result channel: nothing yet, the one value, or closed and empty. */
  datatype Chan = Open | Buffered(result: AgentResult) | Empty

  datatype Pc =
    | Select
    | CancelDrain | CancelWait
    | ClosedWait
    | ResultDrain(result: AgentResult)
    | Ending(result: AgentResult)
    | Finished

  /** What the pump has taken into the log, in order. */
  datatype Item = Msg(message: AgentMessage) | Beat(sinceLastMs: int)

  datatype Sys = Sys(
    pipe: Pipe, chan: Chan, pc: Pc, log: Log,
    cancelled: bool, requested: bool, shutdown: bool, fires: nat,
    // histories
    userFirst: bool, swallowed: bool, failed: bool, detached: bool,
    items: seq<Item>, sent: Option<AgentResult>, endedDown: bool)

  const Init := Sys(
    MP.Fresh(), Open, Select, Start, false, false, false, 0, false, false, false, false, [], None, false)

  datatype Label =
    | Pipe(a: MP.PipeStep<AgentMessage>)     // backend and relay, all but Deliver
    | SendResult(r: AgentResult) | CloseResult
    | ClientGone | UserCancel | ShutdownAll | Fire
    | SeeCancel | Tick(ms: int, io: Io) | Recv(io1: Io, io2: Io) | SeeClosed | TakeResult | TakeEmpty
    | DrainTimeout | WaitResult | WaitEmpty | WaitTimeout
    | EndStream(endIo: Io) | Discard

  const NoResult := AgentResult("failed", "", "backend exited without a Result", "")
  const EmptyResult := AgentResult("failed", "", "backend Result channel closed empty", "")
  const Disconnected := AgentResult("cancelled", "", "client disconnected", "")

  /** Leaving a drain; only the cancel branch detaches a reader that goes on discarding. */
  function LeaveDrain(s: Sys): (t: Sys)
    requires s.pc.CancelDrain? || s.pc.ResultDrain?
    ensures t == s.(pc := t.pc, detached := t.detached) && (t.pc.Ending? || t.pc.CancelWait?)
  {
    match s.pc
    case ResultDrain(r) => s.(pc := Ending(r))
    case _ => s.(pc := CancelWait, detached := true)
  }

  predicate Reading(pc: Pc) { pc.Select? || pc.CancelDrain? || pc.ResultDrain? }

  predicate Waiting(pc: Pc) { pc.CancelWait? || pc.ClosedWait? }

  function Received(cfg: Config, s: Sys, io1: Io, io2: Io): (t: Sys)
    requires Reading(s.pc) && s.pipe.relay.Holding?
    ensures t == s.(pipe := MP.Next(s.pipe, MP.Deliver).value, log := t.log, items := t.items, pc := t.pc,
                    swallowed := t.swallowed, detached := t.detached, failed := t.failed)
    ensures t.pc == s.pc || t.pc.Finished? || (s.pc.CancelDrain? && t.pc.CancelWait?)
  {
    var m := s.pipe.relay.message;
    var (l, ok) := OnMessage(cfg, s.log, m, io1, io2);
    var t := s.(pipe := MP.Next(s.pipe, MP.Deliver).value);
    if ok then t.(log := l, items := s.items + [Msg(m)])
    else if s.pc.CancelDrain? then t.(log := l, swallowed := true, detached := true, pc := CancelWait)
    else t.(log := Abort(l), failed := true, pc := Finished)
  }

  /** Steps of everybody but the pump. */
  predicate Outside(a: Label) {
    a.Pipe? || a.SendResult? || a.CloseResult? || a.ClientGone?
    || a.UserCancel? || a.ShutdownAll? || a.Fire? || a.Discard?
  }

  function NextOutside(s: Sys, a: Label): (r: Option<Sys>)
    requires Outside(a)
    ensures r.Some? ==> r.value.pc == s.pc && r.value.detached == s.detached && r.value.log == s.log
  {
    match a
    case Pipe(x) =>
      if x.Deliver? then None
      else (match MP.Next(s.pipe, x) case None => None case Some(p) => Some(s.(pipe := p)))
    case SendResult(r) => if s.chan.Open? then Some(s.(chan := Buffered(r), sent := Some(r))) else None
    case CloseResult => if s.chan.Open? then Some(s.(chan := Empty)) else None
    case ClientGone => Some(s.(cancelled := true))
    case UserCancel => Some(if s.requested then s else s.(requested := true, fires := s.fires + 1, userFirst := true))
    case ShutdownAll => Some(if s.requested then s else s.(requested := true, shutdown := true, fires := s.fires + 1))
    case Fire => if s.fires > 0 then Some(s.(cancelled := true, fires := s.fires - 1)) else None
    case Discard =>
      if s.detached && s.pipe.relay.Holding? then Some(s.(pipe := MP.Next(s.pipe, MP.Deliver).value)) else None
  }

  function NextPump(cfg: Config, s: Sys, a: Label): Option<Sys>
    requires !Outside(a)
  {
    match a
    case SeeCancel => if s.pc.Select? && s.cancelled then Some(s.(pc := CancelDrain)) else None
    case Tick(ms, io) =>
      if !s.pc.Select? then None
      else
        var (l, ok) := Persist(s.log, Heartbeat(ms), io);
        Some(if ok then s.(log := l, items := s.items + [Beat(ms)])
             else s.(log := Abort(l), failed := true, pc := Finished))
    case Recv(io1, io2) =>
      if Reading(s.pc) && s.pipe.relay.Holding? then Some(Received(cfg, s, io1, io2)) else None
    case SeeClosed =>
      if !s.pipe.relay.Done? || !Reading(s.pc) then None
      else if s.pc.Select? then Some(s.(pc := ClosedWait))
      else Some(LeaveDrain(s))
    case TakeResult =>
      if s.pc.Select? && s.chan.Buffered? then Some(s.(pc := ResultDrain(s.chan.result), chan := Empty)) else None
    case TakeEmpty => if s.pc.Select? && s.chan.Empty? then Some(s.(pc := Ending(EmptyResult))) else None
    case DrainTimeout =>
      if s.pc.CancelDrain? || s.pc.ResultDrain?
      then Some(LeaveDrain(s)) else None
    case WaitResult =>
      if Waiting(s.pc) && s.chan.Buffered? then Some(s.(pc := Ending(s.chan.result), chan := Empty)) else None
    case WaitEmpty => if Waiting(s.pc) && s.chan.Empty? then Some(NoneArrived(s)) else None
    case WaitTimeout => if Waiting(s.pc) then Some(NoneArrived(s)) else None
    case EndStream(io) =>
      if s.pc.Ending?
      then Some(s.(log := Finalize(s.log, s.pc.result, s.shutdown, io),
                    pc := Finished, failed := s.failed || !io.inserted, endedDown := s.shutdown))
      else None
  }

  function Next(cfg: Config, s: Sys, a: Label): Option<Sys> {
    if Outside(a) then NextOutside(s, a) else NextPump(cfg, s, a)
  }

  function NoneArrived(s: Sys): (t: Sys)
    ensures t == s.(pc := t.pc) && t.pc.Ending?
  {
    s.(pc := Ending(if s.pc.CancelWait? then Disconnected else NoResult))
  }

  function Exec(cfg: Config, s: Sys, run: seq<Label>): Option<Sys>
    decreases |run|
  {
    if run == [] then Some(s)
    else match Next(cfg, s, run[0])
      case None => None
      case Some(t) => Exec(cfg, t, run[1..])
  }

  lemma {:induction false} ExecSnoc(cfg: Config, s: Sys, run: seq<Label>, t: Sys, a: Label, u: Sys)
    requires Exec(cfg, s, run) == Some(t) && Next(cfg, t, a) == Some(u)
    ensures Exec(cfg, s, run + [a]) == Some(u)
    decreases |run|
  {
    hide Next;
    if run == [] {
      assert [] + [a] == [a] && [a][1..] == [];
      assert Exec(cfg, u, []) == Some(u);
    } else {
      assert (run + [a])[1..] == run[1..] + [a];
      ExecSnoc(cfg, Next(cfg, s, run[0]).value, run[1..], t, a, u);
    }
  }

  // ---------- the log as a function of what was taken in ----------

  function Block(cfg: Config, n: nat, x: Item): seq<Line> {
    match x
    case Beat(ms) => [Line(n, Heartbeat(ms))]
    case Msg(m) =>
      if m.kind == "" then []
      else
        var (p, truncated) := Capped(cfg.codec, cfg.frame(n), PayloadOf(m));
        [Line(n, Message(p))] + (if truncated then [Line(n + 1, TruncationError)] else [])
  }

  /** Rows 1, 2, ... of the log: each message once, as it went through the cap,
      each truncated one followed at once by its error row. */
  function Expand(cfg: Config, items: seq<Item>): seq<Line> {
    if items == [] then []
    else
      var before := Expand(cfg, items[..|items| - 1]);
      before + Block(cfg, 1 + |before|, items[|items| - 1])
  }

  function Messages(items: seq<Item>): seq<AgentMessage> {
    if items == [] then []
    else
      var x := items[|items| - 1];
      Messages(items[..|items| - 1]) + (if x.Msg? then [x.message] else [])
  }

  lemma ExpandSnoc(cfg: Config, items: seq<Item>, x: Item)
    ensures Expand(cfg, items + [x]) == Expand(cfg, items) + Block(cfg, 1 + |Expand(cfg, items)|, x)
    ensures Messages(items + [x]) == Messages(items) + (if x.Msg? then [x.message] else [])
  {
    hide Block;
    assert (items + [x])[..|items|] == items;
  }

  function FirstRow(): seq<Line> { [Line(0, SessionStarted)] }

  // ---------- discipline of the log, in every run ----------

  ghost predicate SeqsIncrease(l: Log) {
    && (forall i, j :: 0 <= i < j < |l.rows| ==> l.rows[i].seqNo < l.rows[j].seqNo)
    && (forall i :: 0 <= i < |l.rows| ==> l.rows[i].seqNo < l.nextSeq)
  }

  ghost predicate Contiguous(l: Log) {
    forall i :: 0 <= i < |l.rows| ==> l.rows[i].seqNo == i
  }

  ghost predicate NoEndRow(rows: seq<Line>) {
    forall i :: 0 <= i < |rows| ==> !rows[i].body.SessionEnded?
  }

  predicate HasEnd(l: Log) { l.rows != [] && l.rows[|l.rows| - 1].body.SessionEnded? }

  /** Starts at 0, without gaps; what was written is a subsequence of what was
      persisted; no end row while the stream is open. `skipped` says that one
      number has been used up by a failed insert. */
  ghost predicate OpenLog(l: Log, skipped: bool) {
    && l.rows != [] && l.rows[0] == Line(0, SessionStarted)
    && Contiguous(l) && l.nextSeq == |l.rows| + (if skipped then 1 else 0)
    && Subsequence(l.wire, l.rows)
    && NoEndRow(l.rows)
    && l.updates == []
  }

  /** After the pump: at most one end row, in last place and only if no insert
      failed outside the cancel drain; a gap exactly when an insert was swallowed
      and the end row came after it; exactly one row update, whose status is
      terminal and the one the end row announced. */
  ghost predicate ClosedLog(l: Log, swallowed: bool, failed: bool) {
    && l.rows != [] && l.rows[0] == Line(0, SessionStarted)
    && SeqsIncrease(l)
    && (Contiguous(l) <==> !(swallowed && HasEnd(l)))
    && Subsequence(l.wire, l.rows)
    && NoEndRow(l.rows[..|l.rows| - 1])
    && (failed ==> !HasEnd(l))
    && |l.updates| == 1 && IsTerminalStatus(l.updates[0].status)
    && (if HasEnd(l) then l.rows[|l.rows| - 1].body.status == l.updates[0].status
        else failed && l.updates[0].status == "failed")
  }

  ghost predicate LogInv(s: Sys) {
    if s.pc.Finished? then ClosedLog(s.log, s.swallowed, s.failed)
    else OpenLog(s.log, s.swallowed) && !s.failed && (s.swallowed ==> !Reading(s.pc))
  }

  /** While the stream is open the numbers increase and lie below the next one. */
  lemma OpenIncreases(l: Log, skipped: bool)
    requires OpenLog(l, skipped)
    ensures SeqsIncrease(l)
  {
    hide Subsequence;
  }

  lemma PersistOpen(l: Log, b: Body, io: Io)
    requires OpenLog(l, false) && !b.SessionEnded?
    ensures Persist(l, b, io).1 == io.inserted
    ensures OpenLog(Persist(l, b, io).0, !io.inserted)
  {
    hide Subsequence;
    var line := Line(l.nextSeq, b);
    SubsequenceSnoc(l.wire, l.rows, line);
    var rows := l.rows + [line];
    assert rows[0] == l.rows[0] && rows[|l.rows|] == line;
    assert forall i :: 0 <= i < |l.rows| ==> rows[i] == l.rows[i];
  }

  lemma AbortCloses(l: Log, skipped: bool, swallowed: bool)
    requires OpenLog(l, skipped)
    ensures ClosedLog(Abort(l), swallowed, true)
    ensures ClosedLog(Abort(l.(nextSeq := l.nextSeq + 1)), swallowed, true)
  {
    hide Subsequence;
    OpenIncreases(l, skipped);
  }

  lemma OnMessageOpen(cfg: Config, l: Log, m: AgentMessage, io1: Io, io2: Io)
    requires OpenLog(l, false)
    ensures OpenLog(OnMessage(cfg, l, m, io1, io2).0, !OnMessage(cfg, l, m, io1, io2).1)
  {
    hide Capped, Persist, Subsequence, SeqsIncrease, NoEndRow, Contiguous;
    var l0 := NoteSession(l, m);
    NoteSessionOpen(l, false, m);
    if m.kind != "" {
      var (p, truncated) := Capped(cfg.codec, cfg.frame(l0.nextSeq), PayloadOf(m));
      PersistOpen(l0, Message(p), io1);
      if io1.inserted {
        PersistOpen(Persist(l0, Message(p), io1).0, TruncationError, io2);
      }
    }
  }

  lemma NoteSessionOpen(l: Log, skipped: bool, m: AgentMessage)
    requires OpenLog(l, skipped)
    ensures OpenLog(NoteSession(l, m), skipped)
  {
  }

  lemma EndRowCloses(l: Log, t: Log, skipped: bool, line: Line, written: bool, u: Update)
    requires OpenLog(l, skipped)
    requires line.seqNo == l.nextSeq && line.body.SessionEnded? && line.body.status == u.status
             && IsTerminalStatus(u.status)
    requires t.nextSeq == l.nextSeq + 1 && t.rows == l.rows + [line] && t.updates == [u]
    requires t.wire == if written then l.wire + [line] else l.wire
    ensures ClosedLog(t, skipped, false)
  {
    hide Subsequence, IsTerminalStatus, SeqsIncrease, Contiguous, NoEndRow;
    EndRowNumbers(l, t, skipped, line);
    SubsequenceSnoc(l.wire, l.rows, line);
    assert t.rows[..|t.rows| - 1] == l.rows && t.rows[|t.rows| - 1] == line;
    assert t.rows[0] == l.rows[0];
  }

  /** The number of a further row: it keeps the order, and leaves a gap if one was skipped. */
  lemma EndRowNumbers(l: Log, t: Log, skipped: bool, line: Line)
    requires Contiguous(l) && l.nextSeq == |l.rows| + (if skipped then 1 else 0)
    requires line.seqNo == l.nextSeq && t.rows == l.rows + [line] && t.nextSeq == l.nextSeq + 1
    ensures SeqsIncrease(t) && (Contiguous(t) <==> !skipped)
  {
    assert t.rows[|l.rows|] == line;
    assert forall i :: 0 <= i < |l.rows| ==> t.rows[i] == l.rows[i];
  }

  lemma OpenUpdates(l: Log, skipped: bool)
    requires OpenLog(l, skipped)
    ensures l.updates == []
  {
  }

  lemma FinalizeCloses(l: Log, skipped: bool, r: AgentResult, shutdown: bool, io: Io)
    requires OpenLog(l, skipped)
    ensures ClosedLog(Finalize(l, r, shutdown, io), skipped, !io.inserted)
  {
    hide OpenLog, ClosedLog, StatusFromAgentResult, Abort;
    var (status, error) := EndStatus(r, shutdown);
    var bsid := if r.sessionId != "" then r.sessionId else l.bsid;
    var b := SessionEnded(status, error, |r.output|, bsid);
    if io.inserted {
      OpenUpdates(l, skipped);
      EndRowCloses(l, Finalize(l, r, shutdown, io), skipped, Line(l.nextSeq, b), io.written, Update(status, error));
    } else {
      AbortCloses(l, skipped, skipped);
    }
  }

  lemma ReceivedLog(cfg: Config, s: Sys, io1: Io, io2: Io)
    requires LogInv(s) && Reading(s.pc) && s.pipe.relay.Holding?
    ensures LogInv(Received(cfg, s, io1, io2))
  {
    hide OnMessage, Abort, OpenLog, ClosedLog, MP.Next, Received;
    var m := s.pipe.relay.message;
    var (l, ok) := OnMessage(cfg, s.log, m, io1, io2);
    OnMessageOpen(cfg, s.log, m, io1, io2);
    ReceivedCases(cfg, s, io1, io2);
    if !ok && !s.pc.CancelDrain? { AbortCloses(l, true, false); }
  }

  lemma ReceivedCases(cfg: Config, s: Sys, io1: Io, io2: Io)
    requires Reading(s.pc) && s.pipe.relay.Holding?
    ensures var (l, ok) := OnMessage(cfg, s.log, s.pipe.relay.message, io1, io2);
            var t := Received(cfg, s, io1, io2);
            && t.log == (if ok || s.pc.CancelDrain? then l else Abort(l))
            && t.pc == (if ok then s.pc else if s.pc.CancelDrain? then CancelWait else Finished)
            && t.swallowed == (s.swallowed || (!ok && s.pc.CancelDrain?))
            && t.failed == (s.failed || (!ok && !s.pc.CancelDrain?))
            && t.items == (if ok then s.items + [Msg(s.pipe.relay.message)] else s.items)
  {
    hide OnMessage, Abort, MP.Next;
  }

  lemma LogStep(cfg: Config, s: Sys, a: Label)
    requires LogInv(s) && Next(cfg, s, a).Some?
    ensures LogInv(Next(cfg, s, a).value)
  {
    hide Persist, OnMessage, Finalize, Abort, OpenLog, ClosedLog, MP.Next, LeaveDrain, NoneArrived, Received;
    match a {
      case Tick(ms, io) =>
        PersistOpen(s.log, Heartbeat(ms), io);
        if !io.inserted { AbortCloses(Persist(s.log, Heartbeat(ms), io).0, true, false); }
      case Recv(io1, io2) =>
        ReceivedLog(cfg, s, io1, io2);
      case EndStream(io) =>
        FinalizeCloses(s.log, s.swallowed, s.pc.result, s.shutdown, io);
      case _ =>
    }
  }

  lemma {:induction false} LogAlways(cfg: Config, s: Sys, run: seq<Label>)
    requires LogInv(s) && Exec(cfg, s, run).Some?
    ensures LogInv(Exec(cfg, s, run).value)
    decreases |run|
  {
    hide Next, LogInv;
    if run != [] {
      LogStep(cfg, s, run[0]);
      LogAlways(cfg, Next(cfg, s, run[0]).value, run[1..]);
    }
  }

  /** Main result on the log: in every run, at every moment. */
  lemma LogDiscipline(cfg: Config, run: seq<Label>)
    requires Exec(cfg, Init, run).Some?
    ensures LogInv(Exec(cfg, Init, run).value)
  {
    assert LogInv(Init);
    LogAlways(cfg, Init, run);
  }

  /** In every finished run the numbers have a gap exactly when the cancel drain
      swallowed a failed insert and the end row was persisted after it. */
  lemma GapExactly(cfg: Config, run: seq<Label>)
    requires Exec(cfg, Init, run).Some? && Exec(cfg, Init, run).value.pc.Finished?
    ensures var s := Exec(cfg, Init, run).value;
            Contiguous(s.log) <==> !(s.swallowed && HasEnd(s.log))
  {
    LogDiscipline(cfg, run);
  }
}
