/** Pairing of tool uses and tool results for ACP agents, some of which stream a
    tool's arguments before the use can be shown. */
module ToolTracker {
  import opened Wrappers
  import opened Strings

  type Id = string

  /** A tool's input: an object as sent, the object or text read from streamed
      arguments, or either with the touched locations added. */
  datatype Input = Sent(object: string) | FromText(text: string)
    | WithLocations(base: Option<Input>, locations: seq<string>)

  datatype Msg = Use(id: Id, tool: string, input: Option<Input>) | Result(id: Id, output: string)

  /** An accepted update from the agent; names and texts are already extracted. */
  datatype Event =
    | Start(id: Id, tool: string, raw: Option<Input>, inProgress: bool, locations: seq<string>, text: string)
    | Progress(id: Id, text: string)
    | Completion(id: Id, tool: string, raw: Option<Input>, rawOutput: string, output: string, text: string)

  datatype Pending = Pending(tool: string, input: Option<Input>, argsText: string, emitted: bool)

  datatype State = State(pending: map<Id, Pending>, sent: seq<Msg>)

  /** parseToolArgsJSON, up to what the JSON reader makes of the text. */
  function ParseArgs(text: string): Option<Input> {
    if TrimSpace(text) == "" || TrimSpace(text) == "null" then None else Some(FromText(TrimSpace(text)))
  }

  /** A start that is complete in itself. */
  predicate Immediate(e: Event)
    requires e.Start?
  {
    e.raw.Some? || !e.inProgress || e.locations != []
  }

  function StartInput(e: Event): Option<Input>
    requires e.Start?
  {
    if e.raw.Some? then e.raw
    else if e.locations != [] then Some(WithLocations(ParseArgs(e.text), e.locations))
    else ParseArgs(e.text)
  }

  /** The use sent at a completion, unless it was sent already. */
  function DeferredUse(p: Option<Pending>, e: Event): seq<Msg>
    requires e.Completion?
  {
    match p
    case None => [Use(e.id, e.tool, e.raw)]
    case Some(q) =>
      if q.emitted then []
      else [Use(e.id, q.tool, if q.input.Some? then q.input else ParseArgs(q.argsText))]
  }

  function OutputOf(e: Event): (r: string)
    requires e.Completion?
    ensures r == "" <==> e.rawOutput == "" && e.output == "" && e.text == ""
  {
    if e.rawOutput != "" then e.rawOutput else if e.output != "" then e.output else e.text
  }

  function Lookup(s: State, id: Id): Option<Pending> {
    if id in s.pending then Some(s.pending[id]) else None
  }

  function Next(s: State, e: Event): State {
    match e
    case Start(id, tool, _, _, _, text) =>
      if Immediate(e)
      then State(s.pending[id := Pending(tool, StartInput(e), "", true)], s.sent + [Use(id, tool, StartInput(e))])
      else s.(pending := s.pending[id := Pending(tool, None, text, false)])
    case Progress(id, text) =>
      if id in s.pending && !s.pending[id].emitted && text != ""
      then s.(pending := s.pending[id := s.pending[id].(argsText := text)])
      else s
    case Completion(id, _, _, _, _, _) =>
      State(s.pending - {id}, s.sent + DeferredUse(Lookup(s, id), e) + [Result(id, OutputOf(e))])
  }

  const Init := State(map[], [])

  function Run(events: seq<Event>): State
    decreases |events|
  {
    if events == [] then Init else Next(Run(events[..|events| - 1]), events[|events| - 1])
  }

  // ---------- counting ----------

  function Uses(sent: seq<Msg>, id: Id): nat {
    if sent == [] then 0
    else Uses(sent[..|sent| - 1], id) + if sent[|sent| - 1].Use? && sent[|sent| - 1].id == id then 1 else 0
  }

  function Results(sent: seq<Msg>, id: Id): nat {
    if sent == [] then 0
    else Results(sent[..|sent| - 1], id) + if sent[|sent| - 1].Result? && sent[|sent| - 1].id == id then 1 else 0
  }

  /** A start for an id whose use is already out and whose result is still due. */
  predicate Overwrites(s: State, e: Event) {
    e.Start? && e.id in s.pending && s.pending[e.id].emitted
  }

  /** How many starts of `id` did that during the run. */
  function OverwriteCount(events: seq<Event>, id: Id): nat
    decreases |events|
  {
    if events == [] then 0
    else
      var n := |events| - 1;
      OverwriteCount(events[..n], id) + if events[n].id == id && Overwrites(Run(events[..n]), events[n]) then 1 else 0
  }

  function Owed(s: State, id: Id): nat {
    if id in s.pending && s.pending[id].emitted then 1 else 0
  }

  lemma OneMore(sent: seq<Msg>, m: Msg, id: Id)
    ensures Uses(sent + [m], id) == Uses(sent, id) + if m.Use? && m.id == id then 1 else 0
    ensures Results(sent + [m], id) == Results(sent, id) + if m.Result? && m.id == id then 1 else 0
  {
    assert (sent + [m])[..|sent|] == sent;
  }

  lemma StepCount(s: State, e: Event, id: Id)
    ensures Uses(Next(s, e).sent, id) - Results(Next(s, e).sent, id) - Owed(Next(s, e), id)
         == Uses(s.sent, id) - Results(s.sent, id) - Owed(s, id) + if e.id == id && Overwrites(s, e) then 1 else 0
  {
    hide Uses, Results, StartInput, ParseArgs, OutputOf, Immediate;
    match e {
      case Start(i, tool, _, _, _, _) =>
        OneMore(s.sent, Use(i, tool, StartInput(e)), id);
      case Progress(_, _) =>
      case Completion(i, _, _, _, _, _) =>
        var d := DeferredUse(Lookup(s, i), e);
        assert s.sent + [] == s.sent;
        if d != [] { OneMore(s.sent, d[0], id); }
        OneMore(s.sent + d, Result(i, OutputOf(e)), id);
    }
  }

  /** For every run and id, the uses sent exceed the results sent by the one
      still owed for an emitted pending entry and by one for every start that
      overwrote such an entry: so the pairing is exact if and only if no start
      reused an id whose result was still due. */
  lemma {:induction false} Pairing(events: seq<Event>, id: Id)
    ensures Uses(Run(events).sent, id) == Results(Run(events).sent, id) + Owed(Run(events), id)
            + OverwriteCount(events, id)
    ensures Uses(Run(events).sent, id) - Results(Run(events).sent, id) == Owed(Run(events), id)
            <==> forall k :: 0 <= k < |events| && events[k].id == id ==> !Overwrites(Run(events[..k]), events[k])
    decreases |events|
  {
    CountIsZero(events, id);
    if events != [] {
      var n := |events| - 1;
      Pairing(events[..n], id);
      StepCount(Run(events[..n]), events[n], id);
    }
  }

  lemma {:induction false} CountIsZero(events: seq<Event>, id: Id)
    ensures OverwriteCount(events, id) == 0
            <==> forall k :: 0 <= k < |events| && events[k].id == id ==> !Overwrites(Run(events[..k]), events[k])
    decreases |events|
  {
    hide Overwrites, Run;
    if events != [] {
      var n := |events| - 1;
      CountIsZero(events[..n], id);
      assert forall k :: 0 <= k < n ==> events[..n][..k] == events[..k] && events[..n][k] == events[k];
    }
  }

  /** At every point of the outgoing stream, even between the two messages of one
      update, no id has had more results than uses: each result comes after a use
      of its own. */
  lemma {:induction false} ResultAfterUse(events: seq<Event>, id: Id, k: nat)
    requires k <= |Run(events).sent|
    ensures Results(Run(events).sent[..k], id) <= Uses(Run(events).sent[..k], id)
    decreases |events|
  {
    hide Uses, Results, OverwriteCount, StartInput, ParseArgs, OutputOf, Immediate, TrimSpace;
    if events != [] {
      var n := |events| - 1;
      var s, e := Run(events[..n]), events[n];
      var t := Next(s, e);
      if k <= |s.sent| {
        assert t.sent[..k] == s.sent[..k];
        ResultAfterUse(events[..n], id, k);
      } else {
        Pairing(events, id);
        Pairing(events[..n], id);
        if k < |t.sent| {
          assert e.Completion?;
          var d := DeferredUse(Lookup(s, e.id), e);
          assert t.sent[..k] == s.sent + [d[0]];
          OneMore(s.sent, d[0], id);
        } else {
          assert t.sent[..k] == t.sent;
        }
      }
    } else {
      assert Run(events).sent[..k] == [];
      NoMessages(id);
    }
  }

  lemma NoMessages(id: Id)
    ensures Uses([], id) == Results([], id) == 0
  {
  }

  // ---------- streamed arguments ----------

  /** A deferred start of `id` at `s`, and only progress for `id` after it. */
  predicate Streaming(events: seq<Event>, id: Id, s: nat) {
    && s < |events| && events[s].Start? && events[s].id == id && !Immediate(events[s])
    && forall k :: s < k < |events| && events[k].id == id ==> events[k].Progress?
  }

  function Buffered(events: seq<Event>, id: Id, s: nat): string
    requires Streaming(events, id, s)
    decreases |events|
  {
    var n := |events| - 1;
    if n == s then events[s].text
    else if events[n].id == id && events[n].text != "" then events[n].text
    else
      assert forall k :: 0 <= k < n ==> events[..n][k] == events[k];
      Buffered(events[..n], id, s)
  }

  lemma {:induction false} BufferedState(events: seq<Event>, id: Id, s: nat)
    requires Streaming(events, id, s)
    ensures Lookup(Run(events), id) == Some(Pending(events[s].tool, None, Buffered(events, id, s), false))
    decreases |events|
  {
    hide Immediate, DeferredUse, StartInput, OutputOf, ParseArgs;
    var n := |events| - 1;
    if n > s {
      assert forall k :: 0 <= k < n ==> events[..n][k] == events[k];
      BufferedState(events[..n], id, s);
    }
  }

  lemma {:induction false} BufferedIsLast(events: seq<Event>, id: Id, s: nat, j: nat)
    requires Streaming(events, id, s) && s <= j < |events| && events[j].id == id
    requires j == s || events[j].text != ""
    requires forall k :: j < k < |events| && events[k].id == id ==> events[k].text == ""
    ensures Buffered(events, id, s) == events[j].text
    decreases |events|
  {
    var n := |events| - 1;
    if n > s && j < n {
      assert forall k :: 0 <= k < n ==> events[..n][k] == events[k];
      BufferedIsLast(events[..n], id, s, j);
    }
  }

  // ---------- what each update sends ----------

  /** The start of `id` that no completion has answered yet. */
  function OpenStart(events: seq<Event>, id: Id): (s: Option<nat>)
    ensures s.Some? ==> s.value < |events| && events[s.value].Start? && events[s.value].id == id
    ensures s.Some? ==> forall k :: s.value < k < |events| && events[k].id == id ==> events[k].Progress?
    decreases |events|
  {
    if events == [] then None
    else
      var n := |events| - 1;
      var before := OpenStart(events[..n], id);
      assert forall k :: 0 <= k < n ==> events[..n][k] == events[k];
      if events[n].id != id || events[n].Progress? then before
      else if events[n].Start? then Some(n)
      else None
  }

  /** The start waits for its arguments. */
  predicate Waits(e: Event)
    requires e.Start?
  {
    e.raw.None? && e.inProgress && e.locations == []
  }

  /** What is shown of an argument text: nothing of a blank one or of `null`. */
  predicate Shown(text: string, input: Option<Input>) {
    input == if Blank(text) || TrimSpace(text) == "null" then None else Some(FromText(TrimSpace(text)))
  }

  lemma {:induction false} OpenStartPending(events: seq<Event>, id: Id)
    ensures var p, s := Lookup(Run(events), id), OpenStart(events, id);
            && (p.None? <==> s.None?)
            && (s.Some? ==> (p.value.emitted <==> !Waits(events[s.value])))
            && (s.Some? && Waits(events[s.value]) ==>
                  Streaming(events, id, s.value)
                  && p.value == Pending(events[s.value].tool, None, Buffered(events, id, s.value), false))
    decreases |events|
  {
    hide DeferredUse, StartInput, OutputOf, ParseArgs, Buffered;
    if events != [] {
      var n := |events| - 1;
      OpenStartPending(events[..n], id);
      assert forall k :: 0 <= k < n ==> events[..n][k] == events[k];
      var s := OpenStart(events, id);
      if s.Some? && Waits(events[s.value]) { BufferedState(events, id, s.value); }
    }
  }

  lemma Showing(text: string)
    ensures Shown(text, ParseArgs(text))
  {
    hide TrimSpace;
    TrimBlank(text);
  }

  lemma RunSnoc(events: seq<Event>, e: Event)
    ensures Run(events + [e]) == Next(Run(events), e)
  {
    assert (events + [e])[..|events|] == events;
  }

  /** A start shows its use at once, with the tool's own input or with what its
      text and locations say, unless it has to wait for its arguments. */
  lemma StartSends(events: seq<Event>, e: Event) returns (input: Option<Input>)
    requires e.Start?
    ensures Run(events + [e]).sent == Run(events).sent + (if Waits(e) then [] else [Use(e.id, e.tool, input)])
    ensures e.raw.Some? ==> input == e.raw
    ensures e.raw.None? && e.locations == [] ==> Shown(e.text, input)
    ensures e.raw.None? && e.locations != [] ==>
              input.Some? && input.value.WithLocations? && input.value.locations == e.locations
              && Shown(e.text, input.value.base)
  {
    hide ParseArgs, Shown, TrimSpace;
    RunSnoc(events, e);
    Showing(e.text);
    input := StartInput(e);
    assert Run(events).sent + [] == Run(events).sent;
  }

  /** A completion shows the use first when the start waited, with the arguments
      streamed last, or when there was no start, with what it says itself; then
      its result, from the first of its three outputs that is not empty. Progress
      shows nothing. */
  lemma CompletionSends(events: seq<Event>, e: Event) returns (use: seq<Msg>, input: Option<Input>, output: string)
    requires e.Completion?
    ensures Run(events + [e]).sent == Run(events).sent + use + [Result(e.id, output)]
    ensures output == if e.rawOutput != "" then e.rawOutput else if e.output != "" then e.output else e.text
    ensures var s := OpenStart(events, e.id);
            && (s.None? ==> use == [Use(e.id, e.tool, e.raw)])
            && (s.Some? && !Waits(events[s.value]) ==> use == [])
            && (s.Some? && Waits(events[s.value]) ==>
                  && use == [Use(e.id, events[s.value].tool, input)]
                  && Streaming(events, e.id, s.value) && Shown(Buffered(events, e.id, s.value), input))
  {
    hide ParseArgs, Shown, TrimSpace, Buffered, Streaming;
    RunSnoc(events, e);
    OpenStartPending(events, e.id);
    var s := OpenStart(events, e.id);
    use, input, output := DeferredUse(Lookup(Run(events), e.id), e), None, OutputOf(e);
    if s.Some? && Waits(events[s.value]) {
      var text := Buffered(events, e.id, s.value);
      input := ParseArgs(text);
      Showing(text);
    }
  }

  lemma ProgressSends(events: seq<Event>, e: Event)
    requires e.Progress?
    ensures Run(events + [e]).sent == Run(events).sent
  {
    RunSnoc(events, e);
  }

  /** A use that had to wait carries the start's tool name and the last non-empty
      cumulative argument text seen before the completion, and stands directly
      before its result. */
  lemma DeferredCarriesLastText(events: seq<Event>, end: Event, s: nat, j: nat)
    returns (input: Option<Input>, output: string)
    requires end.Completion? && Streaming(events, end.id, s)
    requires s <= j < |events| && events[j].id == end.id && (j == s || events[j].text != "")
    requires forall k :: j < k < |events| && events[k].id == end.id ==> events[k].text == ""
    ensures Run(events + [end]).sent == Run(events).sent + [Use(end.id, events[s].tool, input), Result(end.id, output)]
    ensures Shown(events[j].text, input)
    ensures output == if end.rawOutput != "" then end.rawOutput else if end.output != "" then end.output else end.text
  {
    hide ParseArgs, OutputOf, Shown;
    BufferedState(events, end.id, s);
    BufferedIsLast(events, end.id, s, j);
    RunSnoc(events, end);
    Showing(events[j].text);
    OutputIs(end);
    input, output := ParseArgs(events[j].text), OutputOf(end);
    var u := Use(end.id, events[s].tool, input);
    var before := Run(events).sent;
    assert before + [u] + [Result(end.id, output)] == before + [u, Result(end.id, output)];
  }

  lemma OutputIs(e: Event)
    requires e.Completion?
    ensures OutputOf(e) == if e.rawOutput != "" then e.rawOutput else if e.output != "" then e.output else e.text
  {
  }

  // ---------- the code ----------

  class Client {
    var pendingTools: map<Id, Pending>
    var sent: seq<Msg>

    function Value(): State
      reads this
    {
      State(pendingTools, sent)
    }

    constructor ()
      ensures Value() == Init
    {
      pendingTools, sent := map[], [];
    }

    method HandleToolCallStart(e: Event)
      requires e.Start?
      modifies this
      ensures Value() == Next(old(Value()), e)
    {
      hide TrimSpace;
      var rawInput := e.raw;
      if rawInput.Some? || !e.inProgress || |e.locations| > 0 {
        if rawInput.None? {
          rawInput := ParseArgs(e.text);
          if |e.locations| > 0 {
            rawInput := Some(WithLocations(rawInput, e.locations));
          }
        }
        pendingTools := pendingTools[e.id := Pending(e.tool, rawInput, "", true)];
        sent := sent + [Use(e.id, e.tool, rawInput)];
        return;
      }
      pendingTools := pendingTools[e.id := Pending(e.tool, None, e.text, false)];
    }

    method HandleToolCallUpdate(e: Event)
      requires e.Progress? || e.Completion?
      modifies this
      ensures Value() == Next(old(Value()), e)
    {
      hide TrimSpace;
      if e.Progress? {
        if e.id in pendingTools && !pendingTools[e.id].emitted {
          if e.text != "" {
            pendingTools := pendingTools[e.id := pendingTools[e.id].(argsText := e.text)];
          }
        }
        return;
      }
      var pending := TakePendingTool(e.id);
      EmitDeferredToolUse(pending, e);
      var output := e.rawOutput;
      if output == "" {
        output := e.output;
      }
      if output == "" {
        output := e.text;
      }
      sent := sent + [Result(e.id, output)];
    }

    method TakePendingTool(id: Id) returns (p: Option<Pending>)
      modifies this`pendingTools
      ensures p == Lookup(old(Value()), id) && pendingTools == old(pendingTools) - {id}
    {
      p := if id in pendingTools then Some(pendingTools[id]) else None;
      pendingTools := pendingTools - {id};
    }

    method EmitDeferredToolUse(p: Option<Pending>, e: Event)
      requires e.Completion?
      modifies this`sent
      ensures sent == old(sent) + DeferredUse(p, e)
    {
      if p.Some? && p.value.emitted {
        return;
      }
      var tool, input;
      if p.Some? && p.value.input.Some? {
        tool, input := p.value.tool, p.value.input;
      } else if p.Some? {
        tool, input := p.value.tool, ParseArgs(p.value.argsText);
      } else {
        tool, input := e.tool, e.raw;
      }
      sent := sent + [Use(e.id, tool, input)];
    }
  }
}
