/** What the pump does to the database and the response, arm by arm. */
module PumpLog {
  import opened Wrappers
  import opened Envelope
  import opened Strings

  /** Outcome of the two writes of one envelope: the row insert and the response. */
  datatype Io = Io(inserted: bool, written: bool)

  datatype AgentMessage = AgentMessage(
    kind: string, content: string, tool: string, callId: string, input: Option<nat>,
    output: string, status: string, level: string, sessionId: string)

  datatype AgentResult = AgentResult(status: string, output: string, error: string, sessionId: string)

  /** The JSON codec, and the length of the outer object by sequence number. */
  datatype Config = Config(codec: Codec, frame: nat -> nat)

  datatype Update = Update(status: string, error: string)

  /** Persisted rows, lines written to the response, terminal row updates. */
  datatype Log = Log(nextSeq: nat, rows: seq<Line>, wire: seq<Line>, updates: seq<Update>, bsid: string)

  /** At pump start the caller has persisted and written session_started. */
  const Start := Log(1, [Line(0, SessionStarted)], [Line(0, SessionStarted)], [], "")

  const TruncationError := Error("message_truncated", "Message content truncated")

  /** Nothing of a message is lost or mixed up in its payload. */
  function PayloadOf(m: AgentMessage): (p: MessagePayload)
    ensures AgentMessage(p.kind, p.content, p.tool, p.callId, p.input, p.output, p.status, p.level, p.backendSessionId)
            == m
  {
    MessagePayload(m.kind, m.content, m.tool, m.callId, m.input, m.output, m.status, m.level, m.sessionId)
  }

  function Insert(l: Log, line: Line): Log { l.(rows := l.rows + [line]) }

  /** A line goes out only once its row is in. */
  function Write(l: Log, line: Line): Log
    requires line in l.rows
  {
    l.(wire := l.wire + [line])
  }

  /** Mint, insert, then write; false when the insert failed. */
  function Persist(l: Log, b: Body, io: Io): (Log, bool) {
    var line := Line(l.nextSeq, b);
    var l0 := l.(nextSeq := l.nextSeq + 1);
    if !io.inserted then (l0, false)
    else
      var l1 := Insert(l0, line);
      (if io.written then Write(l1, line) else l1, true)
  }

  function NoteSession(l: Log, m: AgentMessage): Log {
    if m.sessionId != "" && l.bsid == "" then l.(bsid := m.sessionId) else l
  }

  /** One message, with its truncation notice; false when an insert failed. */
  function OnMessage(cfg: Config, l0: Log, m: AgentMessage, io1: Io, io2: Io): (Log, bool) {
    var l := NoteSession(l0, m);
    if m.kind == "" then (l, true)
    else
      var (p, truncated) := Capped(cfg.codec, cfg.frame(l.nextSeq), PayloadOf(m));
      var (l1, ok) := Persist(l, Message(p), io1);
      if ok && truncated then Persist(l1, TruncationError, io2) else (l1, ok)
  }

  function EndStatus(r: AgentResult, shutdown: bool): (string, string) {
    var status := StatusFromAgentResult(r.status);
    if shutdown && (status == "cancelled" || r.status == "")
    then ("aborted", if r.error == "" then "daemon shutdown" else r.error)
    else (status, r.error)
  }

  /** What an end row and a row update have to say of a result: a terminal status
      goes out as it came, without the blanks around it; a stream marked as
      shutdown that was cancelled, or reported no status, is aborted; anything
      else has failed. */
  predicate Announces(b: Body, u: Update, r: AgentResult, shutdown: bool, session: string) {
    var status := TrimSpace(r.status);
    && b.SessionEnded? && b.status == u.status && b.error == u.error
    && b.outputChars == |r.output|
    && b.backendSessionId == (if r.sessionId == "" then session else r.sessionId)
    && (status in {"completed", "failed", "aborted", "timeout"} ==> u == Update(status, r.error))
    && (status == "cancelled" && !shutdown ==> u == Update("cancelled", r.error))
    && (shutdown && (status == "cancelled" || r.status == "") ==>
          u == Update("aborted", if r.error == "" then "daemon shutdown" else r.error))
    && (status !in {"completed", "failed", "aborted", "timeout", "cancelled"} && !(shutdown && r.status == "") ==>
          u == Update("failed", r.error))
  }

  lemma EndAnnounces(l: Log, r: AgentResult, shutdown: bool, io: Io)
    ensures var t := Finalize(l, r, shutdown, io);
            if io.inserted then
              |t.rows| == |l.rows| + 1 && t.rows[..|l.rows|] == l.rows && t.rows[|l.rows|].seqNo == l.nextSeq
              && |t.updates| == |l.updates| + 1 && t.updates[..|l.updates|] == l.updates
              && Announces(t.rows[|l.rows|].body, t.updates[|l.updates|], r, shutdown, l.bsid)
              && t.wire == (if io.written then l.wire + [t.rows[|l.rows|]] else l.wire)
            else
              t == l.(nextSeq := l.nextSeq + 1, updates := l.updates + [Update("failed", "persist failure")])
  {
    hide TrimSpace;
    BlankIsNoStatus();
  }

  lemma FinalizeIs(l: Log, r: AgentResult, shutdown: bool, io: Io)
    ensures var (status, error) := EndStatus(r, shutdown);
            var bsid := if r.sessionId != "" then r.sessionId else l.bsid;
            var (l1, ok) := Persist(l, SessionEnded(status, error, |r.output|, bsid), io);
            Finalize(l, r, shutdown, io) ==
              if ok then l1.(updates := l1.updates + [Update(status, error)]) else Abort(l1)
  {
  }

  lemma BlankIsNoStatus()
    ensures TrimSpace("") == ""
  {
  }

  /** Either a persisted session_ended and an update with its status, or a failed update. */
  function Finalize(l: Log, r: AgentResult, shutdown: bool, io: Io): Log {
    var (status, error) := EndStatus(r, shutdown);
    var bsid := if r.sessionId != "" then r.sessionId else l.bsid;
    var (l1, ok) := Persist(l, SessionEnded(status, error, |r.output|, bsid), io);
    if ok then l1.(updates := l1.updates + [Update(status, error)]) else Abort(l1)
  }

  function Abort(l: Log): Log {
    l.(updates := l.updates + [Update("failed", "persist failure")])
  }

  // ---------- the code ----------

  class Pump {
    const cfg: Config
    const builder: Builder
    var rows: seq<Line>
    var wire: seq<Line>
    var updates: seq<Update>
    var bsid: string

    ghost function View(): Log
      reads this, builder
    {
      Log(builder.nextSeq, rows, wire, updates, bsid)
    }

    /** The new builder is moved past the session_started already emitted. */
    constructor (cfg: Config)
      ensures View() == Start && fresh(builder) && this.cfg == cfg
    {
      this.cfg := cfg;
      var b := new Builder();
      builder := b;
      var started := Line(0, SessionStarted);
      rows, wire, updates, bsid := [started], [started], [], "";
      new;
      var r := b.Build(SessionStarted);
    }

    method PersistAndWrite(line: Line, io: Io) returns (ok: bool)
      modifies this`rows, this`wire
      ensures ok == io.inserted
      ensures rows == if ok then old(rows) + [line] else old(rows)
      ensures wire == if ok && io.written then old(wire) + [line] else old(wire)
    {
      if !io.inserted {
        return false;
      }
      AppendMessage(line);
      if io.written {
        WriteLine(line);
      }
      return true;
    }

    method AppendMessage(line: Line)
      modifies this`rows
      ensures rows == old(rows) + [line]
    {
      rows := rows + [line];
    }

    /** Only a line whose row is persisted may be written. */
    method WriteLine(line: Line)
      requires line in rows
      modifies this`wire
      ensures wire == old(wire) + [line]
    {
      wire := wire + [line];
    }

    method HandleMessage(m: AgentMessage, io1: Io, io2: Io) returns (ok: bool)
      modifies this, builder
      ensures (View(), ok) == OnMessage(cfg, old(View()), m, io1, io2)
    {
      hide Capped;
      if m.sessionId != "" && bsid == "" {
        bsid := m.sessionId;
      }
      var built := builder.Build(Message(PayloadOf(m)));
      if built.Err? {
        return true;
      }
      var n := built.value.seqNo;
      var p, truncated := TruncateMessageContent(cfg.codec, cfg.frame(n), PayloadOf(m));
      ok := PersistAndWrite(Line(n, Message(p)), io1);
      if ok && truncated {
        var trunc := builder.Build(TruncationError);
        if trunc.Ok? {
          ok := PersistAndWrite(trunc.value, io2);
        }
      }
    }

    /** drainRemainingMessages over the messages received before the channel closes or the time is up. */
    method DrainRemaining(batch: seq<(AgentMessage, Io, Io)>) returns (ok: bool)
      modifies this, builder
      ensures (View(), ok) == Drained(cfg, old(View()), batch)
    {
      hide OnMessage;
      ok := true;
      var i := 0;
      assert batch[0..] == batch;
      while i < |batch|
        invariant i <= |batch|
        invariant Drained(cfg, View(), batch[i..]) == Drained(cfg, old(View()), batch)
      {
        assert batch[i..][1..] == batch[i + 1..];
        ok := HandleMessage(batch[i].0, batch[i].1, batch[i].2);
        if !ok {
          return;
        }
        i := i + 1;
      }
      assert batch[i..] == [];
      return true;
    }

    method Heartbeat(sinceLastMs: int, io: Io) returns (ok: bool)
      modifies this, builder
      ensures (View(), ok) == Persist(old(View()), Envelope.Heartbeat(sinceLastMs), io)
    {
      var built := builder.Build(Envelope.Heartbeat(sinceLastMs));
      ok := PersistAndWrite(built.value, io);
    }

    method AbortStream()
      modifies this`updates
      ensures View() == Abort(old(View()))
    {
      updates := updates + [Update("failed", "persist failure")];
    }

    method FinalizeStream(r: AgentResult, shutdown: bool, io: Io)
      modifies this, builder
      ensures View() == Finalize(old(View()), r, shutdown, io)
      ensures io.inserted ==>
                |rows| == |old(rows)| + 1 && rows[..|old(rows)|] == old(rows)
                && |updates| == |old(updates)| + 1 && updates[..|old(updates)|] == old(updates)
                && Announces(rows[|old(rows)|].body, updates[|old(updates)|], r, shutdown, old(bsid))
      ensures !io.inserted ==>
                rows == old(rows) && updates == old(updates) + [Update("failed", "persist failure")]
    {
      hide StatusFromAgentResult, Announces, Finalize;
      EndAnnounces(View(), r, shutdown, io);
      FinalizeIs(View(), r, shutdown, io);
      var status := StatusFromAgentResult(r.status);
      var error := r.error;
      if shutdown {
        if status == "cancelled" || r.status == "" {
          status := "aborted";
          if error == "" { error := "daemon shutdown"; }
        }
      }
      var id := bsid;
      if r.sessionId != "" { id := r.sessionId; }
      var built := builder.Build(SessionEnded(status, error, |r.output|, id));
      var ok := PersistAndWrite(built.value, io);
      if !ok {
        AbortStream();
        return;
      }
      updates := updates + [Update(status, error)];
    }
  }

  function Drained(cfg: Config, l: Log, batch: seq<(AgentMessage, Io, Io)>): (Log, bool)
    decreases |batch|
  {
    if batch == [] then (l, true)
    else
      var (l1, ok) := OnMessage(cfg, l, batch[0].0, batch[0].1, batch[0].2);
      if ok then Drained(cfg, l1, batch[1..]) else (l1, false)
  }
}
