/** The event loop of the Pi backend: attempts, commits, usage and the final status. */
module PiRun {
  import opened Wrappers
  import opened Strings
  import opened PiMarkup
  import opened PiTokens
  import opened PiStream
  import PiChunk
  import PiSanitizer

  datatype Usage = Usage(input: int, output: int, cacheRead: int, cacheWrite: int)

  datatype PiMessage = PiMessage(
    role: string, model: string, usage: Option<Usage>, stopReason: string, errorMessage: string)

  datatype Event =
    | AgentStart
    | MessageStart(start: Option<PiMessage>)
    | TextDelta(delta: string)
    | ThinkingDelta(thought: string)
    | ToolStart(tool: string, startId: string)
    | ToolEnd(endId: string, output: string)
    | TurnEnd(turn: Option<PiMessage>)
    | MessageEnd(message: Option<PiMessage>)
    | AutoRetryStart
    | AutoRetryEnd(success: bool, finalError: string)
    | ErrorEvent(text: string)
    | Ignored

  datatype Sent =
    | Text(content: string)
    | Thinking(thought: string)
    | ToolUse(tool: string, useId: string)
    | ToolResult(resultId: string, output: string)
    | Status(status: string)
    | ErrorText(error: string)

  predicate IsSuccessReason(stopReason: string) {
    ToLower(TrimSpace(stopReason)) in {"stop", "tooluse", "tool_use", "end", "end_turn"}
  }

  /** piMessageErrorText; "" when the message carries no failure. */
  function MessageError(m: PiMessage): string {
    if TrimSpace(m.errorMessage) != "" then TrimSpace(m.errorMessage)
    else
      var sr := ToLower(TrimSpace(m.stopReason));
      if sr == "error" then "pi reported stopReason=error with no errorMessage payload"
      else if sr == "aborted" then "pi reported stopReason=aborted"
      else if sr == "length" then "pi reported stopReason=length (output token limit exceeded)"
      else if sr == "" then ""
      else if IsSuccessReason(sr) then ""
      else "pi reported unexpected stopReason: " + m.stopReason
  }

  datatype State = State(
    held: string, attempt: string, committed: string,
    stashedError: string, fatalError: string,
    inFlight: bool, successfulTurn: bool, emitted: bool, usageRecorded: bool,
    usage: map<string, Usage>, sent: seq<Sent>)

  const Initial := State("", "", "", "", "", false, false, false, false, map[], [])

  function ModelName(m: PiMessage, requested: string): string {
    if m.model != "" then m.model else if requested != "" then requested else "unknown"
  }

  function AddUsage(total: map<string, Usage>, model: string, u: Usage): map<string, Usage> {
    var u0 := if model in total then total[model] else Usage(0, 0, 0, 0);
    total[model := Usage(u0.input + u.input, u0.output + u.output,
                         u0.cacheRead + u.cacheRead, u0.cacheWrite + u.cacheWrite)]
  }

  function RecordUsage(s: State, m: PiMessage, requested: string): (t: State)
    ensures t == s.(usage := t.usage, usageRecorded := t.usageRecorded)
  {
    if m.usage.Some? && !s.usageRecorded
    then s.(usage := AddUsage(s.usage, ModelName(m, requested), m.usage.value), usageRecorded := true)
    else s
  }

  function Texts(chunks: seq<string>): (r: seq<Sent>)
    ensures |r| == |chunks| && forall i :: 0 <= i < |r| ==> r[i] == Text(chunks[i])
  {
    seq(|chunks|, i requires 0 <= i < |chunks| => Text(chunks[i]))
  }

  /** A failed message: its text is dropped. */
  function Fail(s: State, error: string): State {
    s.(stashedError := error, inFlight := false, held := "", attempt := "")
  }

  function Commit(s: State): State {
    var text := s.attempt + FlushText(s.held);
    s.(held := "", attempt := "", inFlight := false, stashedError := "", successfulTurn := true, emitted := true,
       committed := if s.emitted then s.committed else s.committed + text,
       sent := if s.emitted then s.sent else s.sent + Texts(PiChunk.Chunks(text)))
  }

  function OnMessageEnd(s0: State, m: PiMessage, requested: string): State {
    var s := if m.role == "assistant" then RecordUsage(s0, m, requested) else s0;
    if MessageError(m) != "" then Fail(s, MessageError(m))
    else if m.role == "assistant" && IsSuccessReason(m.stopReason) then Commit(s)
    else if m.role == "assistant" then
      Fail(s, "pi assistant stopped without success (stopReason: " + m.stopReason + ")")
    else s
  }

  function Step(s: State, e: Event, requested: string): State {
    match e
    case AgentStart => s.(sent := s.sent + [Status("running")])
    case MessageStart(m) =>
      if m.Some? && m.value.role == "assistant"
      then s.(inFlight := true, emitted := false, usageRecorded := false, held := "", attempt := "")
      else s
    case TextDelta(d) =>
      var (r, p) := Drain(s.held + d);
      var t := Detok(r);
      if t == "" then s.(held := p)
      else s.(held := p, attempt := s.attempt + t, sent := s.sent + [Status("in_progress")])
    case ThinkingDelta(d) => if d == "" then s else s.(sent := s.sent + [Thinking(d)])
    case ToolStart(tool, id) => s.(sent := s.sent + [ToolUse(tool, id)])
    case ToolEnd(id, output) => s.(sent := s.sent + [ToolResult(id, output)])
    case TurnEnd(m) =>
      if m.Some? && m.value.role == "assistant" then
        var s' := RecordUsage(s, m.value, requested);
        if MessageError(m.value) != "" then Fail(s', MessageError(m.value)) else s'
      else s
    case MessageEnd(m) => if m.Some? then OnMessageEnd(s, m.value, requested) else s
    case AutoRetryStart =>
      s.(sent := s.sent + [Status("retrying")], inFlight := false, emitted := false, usageRecorded := false,
         held := "", attempt := "")
    case AutoRetryEnd(ok, finalError) =>
      if ok then s
      else if finalError != "" then s.(stashedError := finalError)
      else if s.stashedError == "" then s.(stashedError := "pi exhausted automatic retries")
      else s
    case ErrorEvent(text) => s.(fatalError := text, inFlight := false, held := "", attempt := "")
    case Ignored => s
  }

  function Run(s: State, es: seq<Event>, requested: string): State
    decreases |es|
  {
    if es == [] then s else Run(Step(s, es[0], requested), es[1..], requested)
  }

  /** How the process ended. */
  datatype Exit = Clean | DeadlineExceeded(limit: string) | Cancelled | ReadError(err: string) | WaitError(err: string)

  datatype Result = Result(status: string, output: string, error: string, usage: map<string, Usage>)

  /** Status and error after the stream has ended; "" is a success. */
  function Verdict(s: State, exit: Exit): (string, string) {
    if exit.DeadlineExceeded? then ("timeout", "pi timed out after " + exit.limit)
    else if exit.Cancelled? then ("aborted", "execution cancelled")
    else if exit.ReadError? then ("failed", "pi stdout read error: " + exit.err)
    else if s.fatalError != "" then ("failed", s.fatalError)
    else if exit.WaitError? then ("failed", "pi exited with error: " + exit.err)
    else if s.stashedError != "" then ("failed", s.stashedError)
    else if s.inFlight then ("failed", "pi stream ended while assistant turn was still in flight")
    else if !s.successfulTurn then ("failed", "pi stream ended without successful turn completion")
    else ("completed", "")
  }

  // ---------- the loop ----------

  class Loop {
    const requested: string
    const buf: PiSanitizer.TextBuffer
    var attempt: string
    var committed: string
    var stashedError: string
    var fatalError: string
    var inFlight: bool
    var successfulTurn: bool
    var emitted: bool
    var usageRecorded: bool
    var usage: map<string, Usage>
    var sent: seq<Sent>

    ghost function View(): State
      reads this, buf
    {
      State(buf.held, attempt, committed, stashedError, fatalError, inFlight,
            successfulTurn, emitted, usageRecorded, usage, sent)
    }

    constructor (requested: string)
      ensures View() == Initial && fresh(buf) && this.requested == requested
    {
      this.requested := requested;
      buf := new PiSanitizer.TextBuffer();
      attempt, committed, stashedError, fatalError := "", "", "", "";
      inFlight, successfulTurn, emitted, usageRecorded := false, false, false, false;
      usage, sent := map[], [];
    }

    method RecordAssistantUsage(m: PiMessage)
      modifies this`usage, this`usageRecorded
      ensures View() == RecordUsage(old(View()), m, requested)
    {
      if m.usage.Some? && !usageRecorded {
        var model := m.model;
        if model == "" { model := requested; }
        if model == "" { model := "unknown"; }
        var u := if model in usage then usage[model] else Usage(0, 0, 0, 0);
        var d := m.usage.value;
        usage := usage[model := Usage(u.input + d.input, u.output + d.output,
                                      u.cacheRead + d.cacheRead, u.cacheWrite + d.cacheWrite)];
        usageRecorded := true;
      }
    }

    method Discard(error: string)
      modifies this`stashedError, this`inFlight, this`attempt, buf
      ensures View() == Fail(old(View()), error)
    {
      stashedError := error;
      inFlight := false;
      buf.Reset();
      attempt := "";
    }

    method Handle(e: Event)
      modifies this, buf
      ensures View() == Step(old(View()), e, requested)
    {
      hide Drain, Detok, MessageError, IsSuccessReason, PiChunk.Chunks, FlushText, OnMessageEnd, AddUsage, ModelName;
      match e {
        case AgentStart =>
          sent := sent + [Status("running")];
        case MessageStart(m) =>
          if m.Some? && m.value.role == "assistant" {
            inFlight, emitted, usageRecorded := true, false, false;
            buf.Reset();
            attempt := "";
          }
        case TextDelta(delta) =>
          AddDelta(delta);
        case ThinkingDelta(d) =>
          if d != "" { sent := sent + [Thinking(d)]; }
        case ToolStart(tool, id) =>
          sent := sent + [ToolUse(tool, id)];
        case ToolEnd(id, output) =>
          sent := sent + [ToolResult(id, output)];
        case TurnEnd(m) =>
          if m.Some? { EndTurn(m.value); }
        case MessageEnd(m) =>
          if m.Some? { EndMessage(m.value); }
        case AutoRetryStart =>
          sent := sent + [Status("retrying")];
          inFlight, emitted, usageRecorded := false, false, false;
          buf.Reset();
          attempt := "";
        case AutoRetryEnd(ok, finalError) =>
          if !ok {
            if finalError != "" { stashedError := finalError; }
            else if stashedError == "" { stashedError := "pi exhausted automatic retries"; }
          }
        case ErrorEvent(text) =>
          fatalError := text;
          inFlight := false;
          buf.Reset();
          attempt := "";
        case Ignored =>
      }
    }

    /** After the stream: the result, and one last message for a failure that is
        neither a timeout nor a cancel. */
    method Finish(exit: Exit) returns (r: Result)
      modifies this`attempt, this`fatalError, this`sent, buf
      ensures (r.status, r.error) == Verdict(old(View()), exit)
      ensures r.output == old(committed) && r.usage == old(usage)
      ensures sent == old(sent) + if r.status == "failed" then [ErrorText(r.error)] else []
    {
      buf.Reset();
      attempt := "";
      var status := "completed";
      if exit.DeadlineExceeded? {
        status, fatalError := "timeout", "pi timed out after " + exit.limit;
      } else if exit.Cancelled? {
        status, fatalError := "aborted", "execution cancelled";
      } else if exit.ReadError? {
        status, fatalError := "failed", "pi stdout read error: " + exit.err;
      } else if fatalError != "" {
        status := "failed";
      } else if exit.WaitError? {
        status, fatalError := "failed", "pi exited with error: " + exit.err;
      } else if stashedError != "" || !successfulTurn || inFlight {
        status := "failed";
        if stashedError != "" {
          fatalError := stashedError;
        } else if inFlight {
          fatalError := "pi stream ended while assistant turn was still in flight";
        } else {
          fatalError := "pi stream ended without successful turn completion";
        }
      }
      if status == "failed" {
        sent := sent + [ErrorText(fatalError)];
      }
      return Result(status, committed, fatalError, usage);
    }

    method AddDelta(delta: string)
      modifies this, buf
      ensures View() == Step(old(View()), TextDelta(delta), requested)
    {
      hide Drain, Detok;
      var d := buf.DrainDelta(delta);
      if d != "" {
        attempt := attempt + d;
        sent := sent + [Status("in_progress")];
      }
    }

    method EndTurn(m: PiMessage)
      modifies this, buf
      ensures View() == Step(old(View()), TurnEnd(Some(m)), requested)
    {
      hide MessageError;
      if m.role == "assistant" {
        RecordAssistantUsage(m);
        var error := MessageError(m);
        if error != "" { Discard(error); }
      }
    }

    method EndMessage(m: PiMessage)
      modifies this, buf
      ensures View() == OnMessageEnd(old(View()), m, requested)
    {
      hide Drain, Detok, MessageError, IsSuccessReason, PiChunk.Chunks, FlushText;
      if m.role == "assistant" { RecordAssistantUsage(m); }
      var error := MessageError(m);
      if error != "" {
        Discard(error);
      } else if m.role == "assistant" && IsSuccessReason(m.stopReason) {
        ghost var all := attempt + FlushText(buf.held);
        var d := buf.Flush();
        if d != "" { attempt := attempt + d; }
        assert attempt == all;
        buf.Reset();
        if !emitted {
          var commit := attempt;
          committed := committed + commit;
          if commit != "" {
            var chunks := PiChunk.EmitChunked(commit);
            sent := sent + Texts(chunks);
          } else {
            NoChunks();
          }
          emitted := true;
        }
        attempt := "";
        inFlight := false;
        stashedError := "";
        successfulTurn := true;
      } else if m.role == "assistant" {
        Discard("pi assistant stopped without success (stopReason: " + m.stopReason + ")");
      }
    }
  }

  lemma NoChunks()
    ensures forall s: seq<Sent> :: s + Texts(PiChunk.Chunks("")) == s
  {
  }

  // ---------- what the run sends and reports ----------

  function TextOf(sent: seq<Sent>): string {
    if sent == [] then ""
    else TextOf(sent[..|sent| - 1]) + (match sent[|sent| - 1] case Text(c) => c case _ => "")
  }

  lemma {:induction false} TextOfChunks(sent: seq<Sent>, cs: seq<string>)
    ensures TextOf(sent + Texts(cs)) == TextOf(sent) + Concat(cs)
    decreases |cs|
  {
    if cs == [] {
      assert sent + Texts(cs) == sent;
    } else {
      var more := sent + [Text(cs[0])];
      assert more[..|sent|] == sent;
      assert sent + Texts(cs) == more + Texts(cs[1..]);
      TextOfChunks(more, cs[1..]);
    }
  }

  lemma StepOutput(s: State, e: Event, requested: string)
    requires s.committed == TextOf(s.sent)
    ensures Step(s, e, requested).committed == TextOf(Step(s, e, requested).sent)
  {
    hide Drain, Detok, MessageError, IsSuccessReason, TextOf, OnMessageEnd;
    if e.MessageEnd? {
      if e.message.Some? { EndOutput(s, e.message.value, requested); }
    } else {
      StepSends(s, e, requested);
      var t := Step(s, e, requested);
      if t.sent != s.sent { NoTextSent(s.sent, t.sent[|s.sent|]); }
    }
  }

  lemma NoTextSent(sent: seq<Sent>, m: Sent)
    requires !m.Text?
    ensures TextOf(sent + [m]) == TextOf(sent)
  {
    assert (sent + [m])[..|sent|] == sent;
  }

  /** Only the end of a message commits; other events send at most one message, never text. */
  lemma StepSends(s: State, e: Event, requested: string)
    requires !e.MessageEnd?
    ensures var t := Step(s, e, requested);
            t.committed == s.committed
            && (t.sent == s.sent
                 || (|t.sent| == |s.sent| + 1 && t.sent == s.sent + [t.sent[|s.sent|]] && !t.sent[|s.sent|].Text?))
  {
    hide *;
    if Step(s, e, requested).sent != s.sent { StepAppends(s, e, requested); }
    StepCommits(s, e, requested);
  }

  lemma StepAppends(s: State, e: Event, requested: string)
    requires !e.MessageEnd? && Step(s, e, requested).sent != s.sent
    ensures |Step(s, e, requested).sent| == |s.sent| + 1
            && Step(s, e, requested).sent == s.sent + [Step(s, e, requested).sent[|s.sent|]]
    ensures var m := Step(s, e, requested).sent[|s.sent|];
            !m.Text? && PassedOne(e) == if IsPassed(m) then [m] else []
  {
    hide Drain, Detok, MessageError, IsSuccessReason, RecordUsage;
  }

  lemma StepCommits(s: State, e: Event, requested: string)
    requires !e.MessageEnd?
    ensures Step(s, e, requested).committed == s.committed
  {
    hide Drain, Detok, MessageError, IsSuccessReason, RecordUsage;
  }

  lemma EndOutput(s: State, m: PiMessage, requested: string)
    requires s.committed == TextOf(s.sent)
    ensures OnMessageEnd(s, m, requested).committed == TextOf(OnMessageEnd(s, m, requested).sent)
  {
    hide MessageError, IsSuccessReason, TextOf, RecordUsage, Commit;
    CommitOutput(if m.role == "assistant" then RecordUsage(s, m, requested) else s);
  }

  lemma CommitOutput(s: State)
    requires s.committed == TextOf(s.sent)
    ensures Commit(s).committed == TextOf(Commit(s).sent)
  {
    hide PiChunk.Chunks, Concat, FlushText, Texts, TextOf;
    var text := s.attempt + FlushText(s.held);
    TextOfChunks(s.sent, PiChunk.Chunks(text));
    PiChunk.ChunksConcat(text);
  }

  /** In every event run, bracketed or not, the reported output is exactly the
      text that was sent, piece after piece. */
  lemma {:induction false} OutputIsSentText(s: State, es: seq<Event>, requested: string)
    requires s.committed == TextOf(s.sent)
    ensures Run(s, es, requested).committed == TextOf(Run(s, es, requested).sent)
    decreases |es|
  {
    hide Step, TextOf;
    if es != [] {
      StepOutput(s, es[0], requested);
      OutputIsSentText(Step(s, es[0], requested), es[1..], requested);
    }
  }

  // ---------- bracketed runs ----------

  /** The five reasons, in small letters and without white space around them, that
      stand for an answer given in full. */
  predicate AnswerGiven(m: PiMessage) {
    ToLower(TrimSpace(m.stopReason)) in {"stop", "tooluse", "tool_use", "end", "end_turn"}
  }

  /** No failure is reported, though perhaps no success either. */
  predicate Harmless(m: PiMessage) {
    TrimSpace(m.errorMessage) == "" && (TrimSpace(m.stopReason) == "" || AnswerGiven(m))
  }

  /** What a message that is not harmless reports. */
  function Complaint(m: PiMessage): string {
    var reason := ToLower(TrimSpace(m.stopReason));
    if TrimSpace(m.errorMessage) != "" then TrimSpace(m.errorMessage)
    else if reason == "error" then "pi reported stopReason=error with no errorMessage payload"
    else if reason == "aborted" then "pi reported stopReason=aborted"
    else if reason == "length" then "pi reported stopReason=length (output token limit exceeded)"
    else "pi reported unexpected stopReason: " + m.stopReason
  }

  lemma ErrorIsComplaint(m: PiMessage)
    ensures MessageError(m) == if Harmless(m) then "" else Complaint(m)
    ensures !Harmless(m) ==> Complaint(m) != ""
    ensures IsSuccessReason(m.stopReason) == AnswerGiven(m)
  {
    hide TrimSpace, ToLower;
    LowerTwice(m.stopReason);
  }

  lemma LowerTwice(s: string)
    ensures ToLower(TrimSpace(ToLower(TrimSpace(s)))) == ToLower(TrimSpace(s))
    ensures ToLower(TrimSpace(s)) == "" <==> TrimSpace(s) == ""
  {
    hide TrimSpace;
    var p, q := TrimSpaceIs(s);
    var u := ToLower(TrimSpace(s));
    TrimmedStays(u);
    assert forall i :: 0 <= i < |u| ==> ToLower(u)[i] == u[i];
    assert ToLower(u) == u;
  }

  /** How an attempt ends: with message_end and perhaps, after the tools have
      run, turn_end; or replaced by a retry. */
  datatype Ending = Ended(end: PiMessage, between: seq<Event>, turn: Option<PiMessage>) | Retried

  /** An assistant message from its start to its end, and what comes before the next. */
  datatype Attempt = Attempt(start: PiMessage, inner: seq<Event>, ending: Ending, after: seq<Event>)

  /** Events without a say in any attempt: thinking, tools, and messages of others. */
  predicate Quiet(e: Event) {
    match e
    case AgentStart => true
    case ThinkingDelta(_) => true
    case ToolStart(_, _) => true
    case ToolEnd(_, _) => true
    case Ignored => true
    case MessageStart(m) => m.Some? ==> m.value.role != "assistant"
    case TurnEnd(m) => m.Some? ==> m.value.role != "assistant"
    case MessageEnd(m) => m.Some? ==> m.value.role != "assistant" && Harmless(m.value)
    case AutoRetryEnd(ok, _) => ok
    case _ => false
  }

  /** Events that may occur while an assistant message is open. */
  predicate Inner(e: Event) { e.TextDelta? || Quiet(e) }

  /** Events that may occur between two attempts. */
  predicate Idle(e: Event) { Quiet(e) || e.AutoRetryStart? || e.AutoRetryEnd? || e.ErrorEvent? }

  predicate WellFormed(a: Attempt) {
    && a.start.role == "assistant"
    && (forall i :: 0 <= i < |a.inner| ==> Inner(a.inner[i]))
    && (forall i :: 0 <= i < |a.after| ==> Idle(a.after[i]))
    && WellEnded(a.ending)
  }

  predicate WellEnded(n: Ending) {
    n.Ended? ==>
      && n.end.role == "assistant"
      && (forall i :: 0 <= i < |n.between| ==> Quiet(n.between[i]))
      && (n.turn.Some? ==> n.turn.value.role == "assistant")
  }

  function EndEvents(n: Ending): seq<Event> {
    match n
    case Retried => [AutoRetryStart]
    case Ended(m, b, t) => [MessageEnd(Some(m))] + b + (if t.Some? then [TurnEnd(t)] else [])
  }

  function EventsOf(a: Attempt): seq<Event> {
    [MessageStart(Some(a.start))] + a.inner + EndEvents(a.ending) + a.after
  }

  function AllEvents(attempts: seq<Attempt>): seq<Event> {
    if attempts == [] then [] else AllEvents(attempts[..|attempts| - 1]) + EventsOf(attempts[|attempts| - 1])
  }

  function Deltas(es: seq<Event>): seq<string> {
    if es == [] then []
    else (if es[0].TextDelta? then [es[0].delta] else []) + Deltas(es[1..])
  }

  /** The text an attempt contributes: all of its deltas through the sanitiser, or nothing. */
  function Contribution(a: Attempt): string {
    if EndSucceeds(a.ending) then Feed("", Deltas(a.inner)) else ""
  }

  function Contributions(attempts: seq<Attempt>): string {
    if attempts == [] then "" else Contributions(attempts[..|attempts| - 1]) + Contribution(attempts[|attempts| - 1])
  }

  /** The first usage report of an attempt is the one that counts. */
  function CountedUsage(n: Ending): Option<PiMessage> {
    match n
    case Retried => None
    case Ended(m, _, t) => if m.usage.Some? then Some(m) else if t.Some? && t.value.usage.Some? then t else None
  }

  function TotalUsage(attempts: seq<Attempt>, requested: string): map<string, Usage> {
    if attempts == [] then map[]
    else Counted(TotalUsage(attempts[..|attempts| - 1], requested), attempts[|attempts| - 1].ending, requested)
  }

  lemma {:induction false} RunAppend(s: State, a: seq<Event>, b: seq<Event>, requested: string)
    ensures Run(s, a + b, requested) == Run(Run(s, a, requested), b, requested)
    decreases |a|
  {
    hide Step;
    if a == [] {
      assert a + b == b;
    } else {
      assert (a + b)[1..] == a[1..] + b;
      RunAppend(Step(s, a[0], requested), a[1..], b, requested);
    }
  }

  /** Only the text buffers and the sent log differ. */
  predicate SameBut(s: State, t: State) {
    t == s.(held := t.held, attempt := t.attempt, sent := t.sent)
  }

  lemma StepQuiet(s: State, e: Event, requested: string)
    requires Quiet(e)
    ensures Step(s, e, requested) == s.(sent := Step(s, e, requested).sent)
  {
    hide MessageError, IsSuccessReason, Drain, Detok, Harmless, Complaint;
    if e.MessageEnd? && e.message.Some? { ErrorIsComplaint(e.message.value); }
  }

  lemma {:induction false} RunQuiet(s: State, es: seq<Event>, requested: string)
    requires forall i :: 0 <= i < |es| ==> Quiet(es[i])
    ensures Run(s, es, requested) == s.(sent := Run(s, es, requested).sent)
    decreases |es|
  {
    hide Step, Quiet;
    if es != [] {
      StepQuiet(s, es[0], requested);
      RunQuiet(Step(s, es[0], requested), es[1..], requested);
    }
  }

  /** The error and the fatal error after the events between two attempts. */
  function ErrorAfter(error: string, es: seq<Event>): string
    decreases |es|
  {
    if es == [] then error
    else if es[0].AutoRetryEnd? && !es[0].success then
      ErrorAfter(if es[0].finalError != "" then es[0].finalError
                 else if error == "" then "pi exhausted automatic retries" else error, es[1..])
    else ErrorAfter(error, es[1..])
  }

  function FatalAfter(fatal: string, es: seq<Event>): string
    decreases |es|
  {
    if es == [] then fatal else FatalAfter(if es[0].ErrorEvent? then es[0].text else fatal, es[1..])
  }

  lemma StepIdle(s: State, e: Event, requested: string)
    requires Idle(e) && !s.inFlight
    ensures var t := Step(s, e, requested);
            && t.committed == s.committed && t.usage == s.usage && t.successfulTurn == s.successfulTurn && !t.inFlight
            && t.stashedError == ErrorAfter(s.stashedError, [e]) && t.fatalError == FatalAfter(s.fatalError, [e])
  {
    hide MessageError, IsSuccessReason, Drain, Detok;
    assert [e][1..] == [];
    if Quiet(e) { StepQuiet(s, e, requested); }
  }

  lemma {:induction false} RunIdle(s: State, es: seq<Event>, requested: string)
    requires !s.inFlight && forall i :: 0 <= i < |es| ==> Idle(es[i])
    ensures var t := Run(s, es, requested);
            && t.committed == s.committed && t.usage == s.usage && t.successfulTurn == s.successfulTurn && !t.inFlight
            && t.stashedError == ErrorAfter(s.stashedError, es) && t.fatalError == FatalAfter(s.fatalError, es)
    decreases |es|
  {
    hide Step, Idle;
    if es != [] {
      StepIdle(s, es[0], requested);
      AfterOne(s.stashedError, s.fatalError, es);
      RunIdle(Step(s, es[0], requested), es[1..], requested);
    }
  }

  lemma AfterOne(error: string, fatal: string, es: seq<Event>)
    requires es != []
    ensures ErrorAfter(error, es) == ErrorAfter(ErrorAfter(error, [es[0]]), es[1..])
    ensures FatalAfter(fatal, es) == FatalAfter(FatalAfter(fatal, [es[0]]), es[1..])
  {
    assert [es[0]][1..] == [];
  }

  lemma StepInner(s: State, e: Event, requested: string)
    requires Inner(e)
    ensures SameBut(s, Step(s, e, requested))
    ensures !e.TextDelta? ==> Step(s, e, requested).held == s.held && Step(s, e, requested).attempt == s.attempt
    ensures e.TextDelta? ==> Step(s, e, requested).held == Drain(s.held + e.delta).1
                             && Step(s, e, requested).attempt == s.attempt + Detok(Drain(s.held + e.delta).0)
  {
    hide Drain, Detok, MessageError, IsSuccessReason, Quiet;
    if !e.TextDelta? { StepQuiet(s, e, requested); }
  }

  /** Inside an attempt only the text buffers and the sent log move; what the
      buffers hold plus what is still to come is fixed. */
  lemma {:induction false} RunInner(s: State, es: seq<Event>, requested: string)
    requires forall i :: 0 <= i < |es| ==> Inner(es[i])
    ensures Run(s, es, requested).attempt + FlushText(Run(s, es, requested).held)
            == s.attempt + Feed(s.held, Deltas(es))
    ensures SameBut(s, Run(s, es, requested))
    decreases |es|
  {
    hide Drain, Detok, FlushText, Step, Inner;
    if es != [] {
      var t := Step(s, es[0], requested);
      StepInner(s, es[0], requested);
      RunInner(t, es[1..], requested);
      var rest := Deltas(es[1..]);
      if es[0].TextDelta? {
        var d := es[0].delta;
        FeedCons(s.held, d, rest);
        var e := Detok(Drain(s.held + d).0);
        assert (s.attempt + e) + Feed(t.held, rest) == s.attempt + (e + Feed(t.held, rest));
      } else {
        assert [] + rest == rest;
      }
    }
  }

  lemma FeedCons(p: string, d: string, ds: seq<string>)
    ensures Feed(p, [d] + ds) == Detok(Drain(p + d).0) + Feed(Drain(p + d).1, ds)
  {
    hide Drain, Detok;
    assert ([d] + ds)[1..] == ds;
  }

  /** What the closing events of an attempt make of the state they find. */
  lemma RunEnd(s: State, n: Ending, requested: string)
    requires WellEnded(n)
    requires !s.emitted && !s.usageRecorded
    ensures var t := Run(s, EndEvents(n), requested);
            && t.committed == s.committed + (if EndSucceeds(n) then s.attempt + FlushText(s.held) else "")
            && t.fatalError == s.fatalError && !t.inFlight
            && t.successfulTurn == (s.successfulTurn || EndSucceeds(n))
            && t.stashedError == (if n.Retried? then s.stashedError else StashedBy(n))
    ensures Run(s, EndEvents(n), requested).usage == Counted(s.usage, n, requested)
  {
    hide *;
    assert s.committed + "" == s.committed;
    CountedCases(s.usage, n, requested);
    match n {
      case Retried =>
        RunOne(s, AutoRetryStart, requested);
        StepRetry(s, requested);
      case Ended(m, b, t) =>
        WellEndedCases(n);
        var s1 := Step(s, MessageEnd(Some(m)), requested);
        RunOne(s, MessageEnd(Some(m)), requested);
        StepMessageEnd(s, m, requested);
        RunAppend(s, [MessageEnd(Some(m))], b, requested);
        RunQuiet(s1, b, requested);
        var s2 := Run(s1, b, requested);
        if t.Some? {
          RunAppend(s, [MessageEnd(Some(m))] + b, [TurnEnd(t)], requested);
          RunOne(s2, TurnEnd(t), requested);
          StepTurnEnd(s2, t.value, requested);
        }
    }
    EndCases(n);
  }

  lemma WellEndedCases(n: Ending)
    requires n.Ended? && WellEnded(n)
    ensures n.end.role == "assistant" && (n.turn.Some? ==> n.turn.value.role == "assistant")
    ensures forall i :: 0 <= i < |n.between| ==> Quiet(n.between[i])
    ensures EndEvents(n) == [MessageEnd(Some(n.end))] + n.between + (if n.turn.Some? then [TurnEnd(n.turn)] else [])
    ensures n.turn.None? ==> EndEvents(n) == [MessageEnd(Some(n.end))] + n.between
  {
    hide Quiet;
  }

  lemma StepRetry(s: State, requested: string)
    ensures EndEvents(Retried) == [AutoRetryStart]
    ensures var t := Step(s, AutoRetryStart, requested);
            !t.inFlight
            && t == s.(sent := t.sent, inFlight := false, emitted := false, usageRecorded := false,
                       held := "", attempt := "")
  {
  }

  /** The error message_end leaves behind; "" after a success. */
  function EndError(m: PiMessage): string {
    if !Harmless(m) then Complaint(m)
    else if AnswerGiven(m) then ""
    else "pi assistant stopped without success (stopReason: " + m.stopReason + ")"
  }

  lemma EndCases(n: Ending)
    ensures n.Retried? ==> !EndSucceeds(n)
    ensures n.Ended? ==> (EndSucceeds(n) <==> Harmless(n.end) && AnswerGiven(n.end))
    ensures n.Ended? ==>
              StashedBy(n) == if n.turn.Some? && !Harmless(n.turn.value) then Complaint(n.turn.value)
                              else EndError(n.end)
  {
    hide AnswerGiven, Harmless, Complaint;
  }

  lemma StepMessageEnd(s: State, m: PiMessage, requested: string)
    requires m.role == "assistant" && !s.emitted && !s.usageRecorded
    ensures var t := Step(s, MessageEnd(Some(m)), requested);
            var ok := Harmless(m) && AnswerGiven(m);
            && t.committed == s.committed + (if ok then s.attempt + FlushText(s.held) else "")
            && t.fatalError == s.fatalError && !t.inFlight
            && t.successfulTurn == (s.successfulTurn || ok)
            && t.stashedError == EndError(m)
            && t.usageRecorded == m.usage.Some?
            && t.usage == if m.usage.Some? then AddUsage(s.usage, ModelName(m, requested), m.usage.value) else s.usage
  {
    hide Step, FlushText, MessageError, IsSuccessReason, PiChunk.Chunks, Texts, AddUsage, ModelName;
    EndIs(s, m, requested);
    ErrorIsComplaint(m);
    assert s.committed + "" == s.committed;
  }

  lemma EndIs(s: State, m: PiMessage, requested: string)
    ensures Step(s, MessageEnd(Some(m)), requested) == OnMessageEnd(s, m, requested)
  {
    hide OnMessageEnd;
  }

  lemma StepTurnEnd(s: State, m: PiMessage, requested: string)
    requires m.role == "assistant" && !s.inFlight
    ensures var t := Step(s, TurnEnd(Some(m)), requested);
            && t.committed == s.committed && t.fatalError == s.fatalError && !t.inFlight
            && t.successfulTurn == s.successfulTurn
            && t.stashedError == (if Harmless(m) then s.stashedError else Complaint(m))
            && t.usage == if m.usage.Some? && !s.usageRecorded
                          then AddUsage(s.usage, ModelName(m, requested), m.usage.value)
                          else s.usage
  {
    hide MessageError, IsSuccessReason, AddUsage, ModelName, Harmless, Complaint;
    ErrorIsComplaint(m);
  }

  lemma CountedCases(total: map<string, Usage>, n: Ending, requested: string)
    ensures Counted(total, n, requested) ==
            if n.Ended? && n.end.usage.Some? then AddUsage(total, ModelName(n.end, requested), n.end.usage.value)
            else if n.Ended? && n.turn.Some? && n.turn.value.usage.Some? then
              AddUsage(total, ModelName(n.turn.value, requested), n.turn.value.usage.value)
            else total
  {
    hide AddUsage, ModelName;
  }

  predicate EndSucceeds(n: Ending) {
    n.Ended? && Harmless(n.end) && AnswerGiven(n.end)
  }

  function Counted(total: map<string, Usage>, n: Ending, requested: string): map<string, Usage> {
    var m := CountedUsage(n);
    if m.Some? && m.value.usage.Some? then AddUsage(total, ModelName(m.value, requested), m.value.usage.value)
    else total
  }

  /** One attempt, from any state of the loop. */
  lemma RunAttempt(s: State, a: Attempt, requested: string)
    requires WellFormed(a)
    ensures var t := Run(s, EventsOf(a), requested);
            && t.committed == s.committed + Contribution(a)
            && !t.inFlight && t.successfulTurn == (s.successfulTurn || EndSucceeds(a.ending))
            && t.fatalError == FatalAfter(s.fatalError, a.after)
            && t.stashedError == ErrorAfter(if a.ending.Retried? then s.stashedError else StashedBy(a.ending), a.after)
    ensures Run(s, EventsOf(a), requested).usage == Counted(s.usage, a.ending, requested)
  {
    hide Feed, Deltas, Run, EndEvents, EndSucceeds, StashedBy, Counted, FlushText, Step, WellEnded,
         Idle, Inner, ErrorAfter, FatalAfter;
    var first := [MessageStart(Some(a.start))];
    var s1 := Step(s, first[0], requested);
    StepStart(s, a.start, requested);
    RunOne(s, first[0], requested);
    RunAppend(s, first, a.inner, requested);
    RunAppend(s, first + a.inner, EndEvents(a.ending), requested);
    RunAppend(s, first + a.inner + EndEvents(a.ending), a.after, requested);
    var s2 := Run(s1, a.inner, requested);
    RunInner(s1, a.inner, requested);
    RunEnd(s2, a.ending, requested);
    RunIdle(Run(s2, EndEvents(a.ending), requested), a.after, requested);
    assert "" + Feed("", Deltas(a.inner)) == Feed("", Deltas(a.inner));
  }

  lemma StepStart(s: State, m: PiMessage, requested: string)
    requires m.role == "assistant"
    ensures Step(s, MessageStart(Some(m)), requested)
            == s.(inFlight := true, emitted := false, usageRecorded := false, held := "", attempt := "")
  {
  }

  /** The error left behind by the end of an attempt; "" after a success. */
  function StashedBy(n: Ending): string
    requires n.Ended?
  {
    if n.turn.Some? && !Harmless(n.turn.value) then Complaint(n.turn.value) else EndError(n.end)
  }

  lemma RunOne(s: State, e: Event, requested: string)
    ensures Run(s, [e], requested) == Step(s, e, requested)
  {
    hide Step;
    assert [e][1..] == [];
  }

  /** The error the run is left with: that of the last attempt not replaced by a
      retry, unless a retry that was given up has replaced it. */
  function LastError(prologue: seq<Event>, attempts: seq<Attempt>): string {
    if attempts == [] then ErrorAfter("", prologue)
    else
      var a := attempts[|attempts| - 1];
      ErrorAfter(if a.ending.Retried? then LastError(prologue, attempts[..|attempts| - 1]) else StashedBy(a.ending),
                 a.after)
  }

  function LastFatal(prologue: seq<Event>, attempts: seq<Attempt>): string {
    if attempts == [] then FatalAfter("", prologue)
    else FatalAfter(LastFatal(prologue, attempts[..|attempts| - 1]), attempts[|attempts| - 1].after)
  }

  predicate AnySucceeded(attempts: seq<Attempt>) {
    attempts != [] && (EndSucceeds(attempts[|attempts| - 1].ending) || AnySucceeded(attempts[..|attempts| - 1]))
  }

  predicate AllWellFormed(attempts: seq<Attempt>) {
    forall i :: 0 <= i < |attempts| ==> WellFormed(attempts[i])
  }

  /** Status and error of a run: how the process ended comes first, then a fatal
      error, then the error that was left; without any, something must have
      succeeded, and no message may have been left open. */
  function Report(fatal: string, error: string, succeeded: bool, open: bool, exit: Exit): (string, string) {
    match exit
    case DeadlineExceeded(limit) => ("timeout", "pi timed out after " + limit)
    case Cancelled => ("aborted", "execution cancelled")
    case ReadError(err) => ("failed", "pi stdout read error: " + err)
    case WaitError(err) => ("failed", if fatal != "" then fatal else "pi exited with error: " + err)
    case Clean =>
      if fatal != "" then ("failed", fatal)
      else if error != "" then ("failed", error)
      else if open then ("failed", "pi stream ended while assistant turn was still in flight")
      else if succeeded then ("completed", "")
      else ("failed", "pi stream ended without successful turn completion")
  }

  /** Main result on bracketed runs.  The output is the sanitised text of
      exactly the attempts that succeeded, in order; each attempt's usage is
      counted once; and the status follows from how the process ended, and after
      a clean exit from whether something succeeded and no error was left. */
  lemma RunOfAttempts(prologue: seq<Event>, attempts: seq<Attempt>, requested: string, exit: Exit)
    requires AllWellFormed(attempts) && forall i :: 0 <= i < |prologue| ==> Idle(prologue[i])
    ensures var t := Run(Initial, prologue + AllEvents(attempts), requested);
            && t.committed == Contributions(attempts)
            && t.usage == TotalUsage(attempts, requested)
            && Verdict(t, exit) == Report(LastFatal(prologue, attempts), LastError(prologue, attempts),
                                          AnySucceeded(attempts), false, exit)
  {
    hide Contributions, TotalUsage, Run, AllEvents, LastFatal, LastError, AnySucceeded, Idle, AllWellFormed;
    AttemptsState(prologue, attempts, requested);
  }

  /** A stream that breaks off within a message contributes nothing of it, and
      fails also after a clean exit. */
  lemma RunBreaksOff(
    prologue: seq<Event>, attempts: seq<Attempt>, start: PiMessage, inner: seq<Event>, requested: string, exit: Exit)
    requires AllWellFormed(attempts) && forall i :: 0 <= i < |prologue| ==> Idle(prologue[i])
    requires start.role == "assistant" && forall i :: 0 <= i < |inner| ==> Inner(inner[i])
    ensures var t := Run(Initial, prologue + AllEvents(attempts) + ([MessageStart(Some(start))] + inner), requested);
            && t.committed == Contributions(attempts)
            && t.usage == TotalUsage(attempts, requested)
            && Verdict(t, exit) == Report(LastFatal(prologue, attempts), LastError(prologue, attempts),
                                          AnySucceeded(attempts), true, exit)
            && Verdict(t, exit).0 != "completed"
  {
    hide *;
    var es := prologue + AllEvents(attempts);
    AttemptsState(prologue, attempts, requested);
    RunAppend(Initial, es, [MessageStart(Some(start))] + inner, requested);
    RunOpen(Run(Initial, es, requested), start, inner, requested);
    OpenVerdict(Run(Initial, es + ([MessageStart(Some(start))] + inner), requested), exit);
  }

  /** An assistant message that has begun and not ended. */
  lemma RunOpen(s: State, start: PiMessage, inner: seq<Event>, requested: string)
    requires start.role == "assistant" && forall i :: 0 <= i < |inner| ==> Inner(inner[i])
    ensures var t := Run(s, [MessageStart(Some(start))] + inner, requested);
            && t.committed == s.committed && t.usage == s.usage && t.inFlight
            && t.successfulTurn == s.successfulTurn
            && t.stashedError == s.stashedError && t.fatalError == s.fatalError
  {
    hide Inner, Step, Run;
    var first := [MessageStart(Some(start))];
    RunAppend(s, first, inner, requested);
    RunOne(s, first[0], requested);
    StepStart(s, start, requested);
    RunInner(Step(s, first[0], requested), inner, requested);
  }

  lemma OpenVerdict(t: State, exit: Exit)
    requires t.inFlight
    ensures Verdict(t, exit) == Report(t.fatalError, t.stashedError, t.successfulTurn, true, exit)
    ensures Verdict(t, exit).0 != "completed"
  {
  }

  /** What the end of a message decides, whatever came before: an answer given in
      full adds its sanitised text to the output and leaves no error; with any
      other reason the text is dropped and an error is left that says why. */
  lemma EndDecides(s: State, a: Attempt, requested: string)
    requires WellFormed(a) && a.ending.Ended? && Blank(a.ending.end.errorMessage)
    requires a.ending.turn.Some? ==> Harmless(a.ending.turn.value)
    ensures var t := Run(s, [MessageStart(Some(a.start))] + a.inner + EndEvents(a.ending), requested);
            var reason := a.ending.end.stopReason;
            var given := Says(reason, "stop") || Says(reason, "tooluse") || Says(reason, "tool_use")
                         || Says(reason, "end") || Says(reason, "end_turn");
            && t.committed == s.committed + (if given then Feed("", Deltas(a.inner)) else "")
            && t.successfulTurn == (s.successfulTurn || given)
            && (t.stashedError == "" <==> given)
            && (Says(reason, "error") ==> t.stashedError == "pi reported stopReason=error with no errorMessage payload")
            && (Says(reason, "aborted") ==> t.stashedError == "pi reported stopReason=aborted")
            && (Says(reason, "length") ==>
                  t.stashedError == "pi reported stopReason=length (output token limit exceeded)")
            && (Blank(reason) ==>
                  t.stashedError == "pi assistant stopped without success (stopReason: " + reason + ")")
            && (!given && !Says(reason, "error") && !Says(reason, "aborted") && !Says(reason, "length")
                && !Blank(reason) ==>
                  t.stashedError == "pi reported unexpected stopReason: " + reason)
  {
    hide Run, EventsOf, Feed, Deltas, Blank, Says, WellFormed, Inner, Idle, Contribution, FatalAfter, StashedBy;
    hide EndSucceeds, Harmless, EndEvents, Counted;
    var b := a.(after := []);
    NothingAfter(a, b);
    RunAttempt(s, b, requested);
    EndSaid(a.ending);
  }

  lemma NothingAfter(a: Attempt, b: Attempt)
    requires b == a.(after := [])
    ensures EventsOf(b) == [MessageStart(Some(a.start))] + a.inner + EndEvents(a.ending)
    ensures WellFormed(a) ==> WellFormed(b)
    ensures Contribution(b) == if EndSucceeds(a.ending) then Feed("", Deltas(a.inner)) else ""
    ensures forall error :: ErrorAfter(error, b.after) == error
  {
    hide EndEvents, Idle, Inner;
  }

  lemma EndSaid(n: Ending)
    requires n.Ended? && Blank(n.end.errorMessage) && (n.turn.Some? ==> Harmless(n.turn.value))
    ensures var reason := n.end.stopReason;
            var given := Says(reason, "stop") || Says(reason, "tooluse") || Says(reason, "tool_use")
                         || Says(reason, "end") || Says(reason, "end_turn");
            && (EndSucceeds(n) <==> given)
            && (StashedBy(n) == "" <==> given)
            && (Says(reason, "error") ==> StashedBy(n) == "pi reported stopReason=error with no errorMessage payload")
            && (Says(reason, "aborted") ==> StashedBy(n) == "pi reported stopReason=aborted")
            && (Says(reason, "length") ==>
                  StashedBy(n) == "pi reported stopReason=length (output token limit exceeded)")
            && (Blank(reason) ==> StashedBy(n) == "pi assistant stopped without success (stopReason: " + reason + ")")
            && (!given && !Says(reason, "error") && !Says(reason, "aborted") && !Says(reason, "length")
                && !Blank(reason) ==>
                  StashedBy(n) == "pi reported unexpected stopReason: " + reason)
  {
    hide Blank, Says, TrimSpace, ToLower;
    var reason := n.end.stopReason;
    TrimBlank(n.end.errorMessage);
    TrimBlank(reason);
    LowerTwice(reason);
    ReasonSays(reason);
  }

  lemma ReasonSays(reason: string)
    ensures var r := ToLower(TrimSpace(reason));
            && (r == "stop" <==> Says(reason, "stop")) && (r == "tooluse" <==> Says(reason, "tooluse"))
            && (r == "tool_use" <==> Says(reason, "tool_use")) && (r == "end" <==> Says(reason, "end"))
            && (r == "end_turn" <==> Says(reason, "end_turn")) && (r == "error" <==> Says(reason, "error"))
            && (r == "aborted" <==> Says(reason, "aborted")) && (r == "length" <==> Says(reason, "length"))
  {
    hide Says, TrimSpace, ToLower;
    TrimLowerIs(reason, "stop");
    TrimLowerIs(reason, "tooluse");
    TrimLowerIs(reason, "tool_use");
    TrimLowerIs(reason, "end");
    TrimLowerIs(reason, "end_turn");
    TrimLowerIs(reason, "error");
    TrimLowerIs(reason, "aborted");
    TrimLowerIs(reason, "length");
  }

  lemma {:induction false} AttemptsState(prologue: seq<Event>, attempts: seq<Attempt>, requested: string)
    requires AllWellFormed(attempts) && forall i :: 0 <= i < |prologue| ==> Idle(prologue[i])
    ensures Run(Initial, prologue + AllEvents(attempts), requested).committed == Contributions(attempts)
    ensures Run(Initial, prologue + AllEvents(attempts), requested).usage == TotalUsage(attempts, requested)
    ensures Run(Initial, prologue + AllEvents(attempts), requested).successfulTurn == AnySucceeded(attempts)
    ensures Run(Initial, prologue + AllEvents(attempts), requested).stashedError == LastError(prologue, attempts)
    ensures Run(Initial, prologue + AllEvents(attempts), requested).fatalError == LastFatal(prologue, attempts)
    ensures !Run(Initial, prologue + AllEvents(attempts), requested).inFlight
    decreases |attempts|
  {
    hide Contribution, EndSucceeds, StashedBy, EventsOf, Counted, Step, WellFormed, Idle, Run, ErrorAfter, FatalAfter;
    if attempts == [] {
      assert prologue + [] == prologue;
      RunIdle(Initial, prologue, requested);
    } else {
      var before, a := attempts[..|attempts| - 1], attempts[|attempts| - 1];
      AttemptsState(prologue, before, requested);
      assert prologue + (AllEvents(before) + EventsOf(a)) == (prologue + AllEvents(before)) + EventsOf(a);
      RunAppend(Initial, prologue + AllEvents(before), EventsOf(a), requested);
      RunAttempt(Run(Initial, prologue + AllEvents(before), requested), a, requested);
    }
  }

  /** ... and where the text of an attempt is good, its contribution is the batch result. */
  lemma ContributionIsBatch(a: Attempt)
    requires EndSucceeds(a.ending) && Good(Concat(Deltas(a.inner)))
    ensures Contribution(a) == StripAll(Concat(Deltas(a.inner)))
  {
    hide *;
    ContributionText(a);
    assert "" + Concat(Deltas(a.inner)) == Concat(Deltas(a.inner));
    StreamIsBatch("", Deltas(a.inner));
  }

  lemma ContributionText(a: Attempt)
    requires EndSucceeds(a.ending)
    ensures Contribution(a) == Feed("", Deltas(a.inner))
  {
  }

  // ---------- usage and tool events are conserved ----------

  /** The model a usage report is for: the message's own, or else the requested one. */
  predicate ReportsFor(m: PiMessage, requested: string, model: string) {
    || (m.model == model && model != "")
    || (m.model == "" && requested == model && model != "")
    || (m.model == "" && requested == "" && model == "unknown")
  }

  /** Tokens of one kind that the ends of the attempts report for a model. */
  function Reported(attempts: seq<Attempt>, requested: string, model: string, kind: Usage -> int): int {
    if attempts == [] then 0
    else
      var m := CountedUsage(attempts[|attempts| - 1].ending);
      Reported(attempts[..|attempts| - 1], requested, model, kind)
      + if m.Some? && m.value.usage.Some? && ReportsFor(m.value, requested, model)
          then kind(m.value.usage.value)
          else 0
  }

  predicate Accounted(
    total: map<string, Usage>, model: string, input: int, output: int, cacheRead: int, cacheWrite: int)
  {
    (if model in total then total[model] else Usage(0, 0, 0, 0)) == Usage(input, output, cacheRead, cacheWrite)
  }

  /** For each model and each kind of token the reported total is the sum over
      the attempts, each attempt once. */
  lemma {:induction false} UsageIsSum(attempts: seq<Attempt>, requested: string, model: string)
    ensures Accounted(TotalUsage(attempts, requested), model,
              Reported(attempts, requested, model, (u: Usage) => u.input),
              Reported(attempts, requested, model, (u: Usage) => u.output),
              Reported(attempts, requested, model, (u: Usage) => u.cacheRead),
              Reported(attempts, requested, model, (u: Usage) => u.cacheWrite))
    decreases |attempts|
  {
    hide CountedUsage;
    if attempts != [] {
      UsageIsSum(attempts[..|attempts| - 1], requested, model);
    }
  }

  /** What is sent for thinking, for tools, and to say that a run or a retry begins. */
  predicate IsPassed(m: Sent) {
    m.Thinking? || m.ToolUse? || m.ToolResult? || m == Status("running") || m == Status("retrying")
  }

  function Passed(sent: seq<Sent>): seq<Sent> {
    if sent == [] then []
    else
      var m := sent[|sent| - 1];
      Passed(sent[..|sent| - 1]) + if IsPassed(m) then [m] else []
  }

  function PassedBy(es: seq<Event>): seq<Sent> {
    if es == [] then [] else PassedOne(es[0]) + PassedBy(es[1..])
  }

  function PassedOne(e: Event): seq<Sent> {
    match e
    case ThinkingDelta(d) => if d == "" then [] else [Thinking(d)]
    case ToolStart(tool, id) => [ToolUse(tool, id)]
    case ToolEnd(id, output) => [ToolResult(id, output)]
    case AgentStart => [Status("running")]
    case AutoRetryStart => [Status("retrying")]
    case _ => []
  }

  lemma PassedSnoc(sent: seq<Sent>, m: Sent)
    ensures Passed(sent + [m]) == Passed(sent) + if IsPassed(m) then [m] else []
  {
    assert (sent + [m])[..|sent|] == sent;
  }

  lemma {:induction false} PassedTexts(sent: seq<Sent>, more: seq<Sent>)
    requires forall i :: 0 <= i < |more| ==> more[i].Text?
    ensures Passed(sent + more) == Passed(sent)
    decreases |more|
  {
    if more == [] {
      assert sent + more == sent;
    } else {
      var n := |more| - 1;
      PassedTexts(sent, more[..n]);
      assert sent + more == (sent + more[..n]) + [more[n]];
      PassedSnoc(sent + more[..n], more[n]);
    }
  }

  lemma StepPasses(s: State, e: Event, requested: string)
    ensures Passed(Step(s, e, requested).sent) == Passed(s.sent) + PassedOne(e)
  {
    hide Passed, Drain, Detok, MessageError, IsSuccessReason, RecordUsage, Texts;
    var t := Step(s, e, requested);
    if e.MessageEnd? {
      EndSendsTexts(s, e, requested);
    } else if t.sent != s.sent {
      StepAppends(s, e, requested);
      PassedSnoc(s.sent, t.sent[|s.sent|]);
    }
    assert Passed(s.sent) + [] == Passed(s.sent);
  }

  lemma EndSendsTexts(s: State, e: Event, requested: string)
    requires e.MessageEnd?
    ensures Passed(Step(s, e, requested).sent) == Passed(s.sent)
  {
    hide Passed, MessageError, IsSuccessReason, RecordUsage, FlushText;
    if e.message.Some? {
      var text := s.attempt + FlushText(s.held);
      PassedTexts(s.sent, Texts(PiChunk.Chunks(text)));
    }
  }

  /** Thinking and tool events are passed on once each, unchanged and in order,
      whatever becomes of the attempts they belong to, and so are the beginnings
      of runs and retries. */
  lemma {:induction false} ToolsPassThrough(s: State, es: seq<Event>, requested: string)
    ensures Passed(Run(s, es, requested).sent) == Passed(s.sent) + PassedBy(es)
    decreases |es|
  {
    hide Step, Passed, PassedOne;
    if es != [] {
      StepPasses(s, es[0], requested);
      ToolsPassThrough(Step(s, es[0], requested), es[1..], requested);
    }
  }
}
