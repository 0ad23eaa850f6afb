/** The exec handler's own writes before it hands the stream to the pump. */
module ExecStart {
  import opened Envelope
  import opened PumpLog
  import opened PumpSystem

  /** The log and row updates after the first envelope, and whether the pump runs. */
  function Begin(io: Io): (Log, bool) {
    if !io.inserted then (Log(1, [], [], [Update("failed", "persist session_started")], ""), false)
    else if !io.written then (Log(1, [Line(0, SessionStarted)], [], [], ""), false)
    else (Start, true)
  }

  /** Exec from the seq-0 envelope to the hand-off: row first, then the line. */
  method BeginStream(io: Io) returns (log: Log, pumped: bool)
    ensures (log, pumped) == Begin(io)
    ensures pumped <==> io.inserted && io.written
    ensures pumped ==> log == Init.log
    ensures log.rows == if io.inserted then [Line(0, SessionStarted)] else []
    ensures log.wire == if pumped then [Line(0, SessionStarted)] else []
    ensures log.updates == if io.inserted then [] else [Update("failed", "persist session_started")]
  {
    var b := new Builder();
    var r := b.Build(SessionStarted);
    var line := r.value;
    log := Log(b.nextSeq, [], [], [], "");
    if !io.inserted {
      log := log.(updates := [Update("failed", "persist session_started")]);
      return log, false;
    }
    log := log.(rows := [line]);
    if !io.written {
      return log, false;
    }
    log := log.(wire := [line]);
    return log, true;
  }

  /** A whole stream: the handler's start and, if it got that far, any run of the
      pump to its end. */
  ghost predicate Ends(cfg: Config, io: Io, run: seq<Label>, log: Log) {
    if Begin(io).1
    then Exec(cfg, Init, run).Some? && Exec(cfg, Init, run).value.pc.Finished? && log == Exec(cfg, Init, run).value.log
    else log == Begin(io).0
  }

  /** Every stream ends with exactly one terminal row update, except when the
      client is gone before the first line: then, and only then, the session row
      is left running. */
  lemma RowUpdates(cfg: Config, io: Io, run: seq<Label>, log: Log)
    requires Ends(cfg, io, run, log)
    ensures |log.updates| <= 1
    ensures log.updates == [] <==> io.inserted && !io.written
    ensures log.updates != [] ==> IsTerminalStatus(log.updates[0].status)
  {
    hide Exec, IsTerminalStatus;
    FailedIsTerminal();
    if Begin(io).1 {
      LogDiscipline(cfg, run);
    }
  }

  lemma FailedIsTerminal()
    ensures IsTerminalStatus("failed")
  {
  }
}
