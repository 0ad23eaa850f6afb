/** pumpAgentSession: the select loop itself, over the sequence of choices the
    select made. */
module PumpLoop {
  import opened Wrappers
  import opened Envelope
  import opened PumpLog
  import opened PumpSystem
  import opened PumpRuns
  import opened PumpChoices

  function Or(waited: Option<AgentResult>, otherwise: AgentResult): AgentResult {
    if waited.Some? then waited.value else otherwise
  }

  /** The log after the loop has made these choices. */
  function Looped(cfg: Config, l: Log, choices: seq<Choice>, shutdown: bool, endIo: Io): (Log, Out)
    decreases |choices|
  {
    if choices == [] then (l, Running)
    else
      var rest := choices[1..];
      match choices[0]
      case CtxDone(batch, waited) =>
        var (l1, ok) := Drained(cfg, l, batch);
        (Finalize(l1, Or(waited, Disconnected), shutdown, endIo), Returned(!ok, !endIo.inserted))
      case TickerFired(due, ms, io) =>
        if !due then Looped(cfg, l, rest, shutdown, endIo)
        else
          var (l1, ok) := Persist(l, Heartbeat(ms), io);
          if ok then Looped(cfg, l1, rest, shutdown, endIo) else (Abort(l1), Returned(false, true))
      case MessageReady(m, io1, io2) =>
        var (l1, ok) := OnMessage(cfg, l, m, io1, io2);
        if ok then Looped(cfg, l1, rest, shutdown, endIo) else (Abort(l1), Returned(false, true))
      case MessagesClosed(waited) =>
        (Finalize(l, Or(waited, NoResult), shutdown, endIo), Returned(false, !endIo.inserted))
      case ResultReady(r, batch) =>
        var (l1, ok) := Drained(cfg, l, batch);
        if ok then (Finalize(l1, r, shutdown, endIo), Returned(false, !endIo.inserted))
        else (Abort(l1), Returned(false, true))
      case ResultClosed =>
        (Finalize(l, EmptyResult, shutdown, endIo), Returned(false, !endIo.inserted))
  }

  // ---------- what the loop leaves behind ----------

  ghost predicate Holds(cfg: Config, l: Log, items: seq<Item>) {
    && l.rows == FirstRow() + Expand(cfg, items) && l.nextSeq == |l.rows|
    && l.bsid == FirstSession(Messages(items)) && l.updates == []
  }

  /** After an offer some row of which did not go in. */
  ghost predicate Failed(cfg: Config, l: Log, items: seq<Item>, o: Offer) {
    var rows := FirstRow() + Expand(cfg, items);
    && l.rows == rows + (if o.first.inserted then FirstOf(Block(cfg, |rows|, o.item)) else [])
    && l.nextSeq == |l.rows| + 1
    && l.bsid == FirstSession(Messages(items + [o.item])) && l.updates == []
  }

  lemma MessageRows(cfg: Config, l: Log, m: AgentMessage, io1: Io, io2: Io)
    ensures var (l', ok) := OnMessage(cfg, l, m, io1, io2);
            var b := Block(cfg, l.nextSeq, Msg(m));
            && (ok <==> Stored(cfg, l.nextSeq, Offer(Msg(m), io1, io2)))
            && l'.rows == l.rows + (if ok then b else if io1.inserted then FirstOf(b) else [])
            && l'.nextSeq == l.nextSeq + (if ok then |b| else if io1.inserted then 2 else 1)
            && (!ok && io1.inserted ==> |b| == 2)
            && l'.bsid == (if l.bsid != "" then l.bsid else m.sessionId) && l'.updates == l.updates
            && (io1.written && io2.written && l.wire == l.rows ==> l'.wire == l'.rows)
  {
    hide Capped;
    assert l.rows + [] == l.rows;
  }

  lemma OfferMessage(cfg: Config, l: Log, items: seq<Item>, m: AgentMessage, io1: Io, io2: Io)
    requires Holds(cfg, l, items)
    ensures var (l', ok) := OnMessage(cfg, l, m, io1, io2);
            var o := Offer(Msg(m), io1, io2);
            && (ok <==> Stored(cfg, 1 + |Expand(cfg, items)|, o))
            && (if ok then Holds(cfg, l', items + [Msg(m)]) else Failed(cfg, l', items, o))
  {
    hide OnMessage, Expand, Block, FirstSession, Messages, Stored;
    ExpandSnoc(cfg, items, Msg(m));
    FirstSessionSnoc(Messages(items), m);
    MessageRows(cfg, l, m, io1, io2);
    var b := Block(cfg, l.nextSeq, Msg(m));
    assert (FirstRow() + Expand(cfg, items)) + b == FirstRow() + (Expand(cfg, items) + b);
  }

  lemma OfferBeat(cfg: Config, l: Log, items: seq<Item>, ms: int, io: Io)
    requires Holds(cfg, l, items)
    ensures var (l', ok) := Persist(l, Heartbeat(ms), io);
            var o := Offer(Beat(ms), io, io);
            && (ok <==> Stored(cfg, 1 + |Expand(cfg, items)|, o))
            && (if ok then Holds(cfg, l', items + [Beat(ms)]) else Failed(cfg, l', items, o))
  {
    hide Expand, FirstSession, Messages;
    ExpandSnoc(cfg, items, Beat(ms));
    var b := Block(cfg, l.nextSeq, Beat(ms));
    assert (FirstRow() + Expand(cfg, items)) + b == FirstRow() + (Expand(cfg, items) + b);
    assert Messages(items) + [] == Messages(items);
    assert l.rows + [] == l.rows;
  }

  lemma TakenOne(cfg: Config, items: seq<Item>, o: Offer, more: seq<Offer>)
    ensures Taken(cfg, items, [o] + more)
         == if Stored(cfg, 1 + |Expand(cfg, items)|, o) then Taken(cfg, items + [o.item], more) else items
  {
    hide Stored;
    assert ([o] + more)[1..] == more;
  }

  lemma {:induction false} TakenBounds(cfg: Config, items: seq<Item>, offers: seq<Offer>)
    ensures |items| <= |Taken(cfg, items, offers)| <= |items| + |offers|
    decreases |offers|
  {
    hide Stored;
    if offers != [] { TakenBounds(cfg, items + [offers[0].item], offers[1..]); }
  }

  lemma TakenNone(cfg: Config, items: seq<Item>)
    ensures Taken(cfg, items, []) == items
  {
  }

  lemma DrainedOne(cfg: Config, l: Log, batch: seq<(AgentMessage, Io, Io)>)
    requires batch != []
    ensures var (l1, ok) := OnMessage(cfg, l, batch[0].0, batch[0].1, batch[0].2);
            Drained(cfg, l, batch) == if ok then Drained(cfg, l1, batch[1..]) else (l1, false)
    ensures BatchOffers(batch) == [Offer(Msg(batch[0].0), batch[0].1, batch[0].2)] + BatchOffers(batch[1..])
  {
    hide OnMessage;
  }

  lemma {:induction false} DrainedTakes(cfg: Config, l: Log, items: seq<Item>, batch: seq<(AgentMessage, Io, Io)>)
    requires Holds(cfg, l, items)
    ensures var (l', ok) := Drained(cfg, l, batch);
            var offers := BatchOffers(batch);
            var taken := Taken(cfg, items, offers);
            var k := |taken| - |items|;
            && 0 <= k <= |offers| && (ok <==> k == |offers|)
            && (if ok then Holds(cfg, l', taken) else Failed(cfg, l', taken, offers[k]))
    decreases |batch|
  {
    hide *;
    if batch == [] {
      TakenNone(cfg, items);
      assert BatchOffers(batch) == [] && Drained(cfg, l, batch) == (l, true) by { NothingDrained(cfg, l); }
    } else {
      var m, more := batch[0].0, BatchOffers(batch[1..]);
      var o := Offer(Msg(m), batch[0].1, batch[0].2);
      DrainedOne(cfg, l, batch);
      OfferMessage(cfg, l, items, m, batch[0].1, batch[0].2);
      TakenOne(cfg, items, o, more);
      var (l1, ok) := OnMessage(cfg, l, m, batch[0].1, batch[0].2);
      if ok {
        DrainedTakes(cfg, l1, items + [Msg(m)], batch[1..]);
        assert forall i :: 0 <= i < |more| ==> ([o] + more)[i + 1] == more[i];
      }
    }
  }

  lemma NothingDrained(cfg: Config, l: Log)
    ensures BatchOffers([]) == [] && Drained(cfg, l, []) == (l, true)
  {
  }

  /** The end of the stream behind a log that holds what was taken, or behind one
      on which an insert has failed. */
  lemma FinalizeEnds(l: Log, r: AgentResult, shutdown: bool, io: Io)
    requires l.updates == []
    ensures Ended(Finalize(l, r, shutdown, io), l.rows, l.nextSeq, r, shutdown, l.bsid, io)
  {
    hide Finalize, Announces;
    EndAnnounces(l, r, shutdown, io);
  }

  /** An offer that was taken whole is as good as part of what was there before. */
  lemma OutcomeCons(
    cfg: Config, items: seq<Item>, choices: seq<Choice>, o: Offer, shutdown: bool, endIo: Io, l: Log, out: Out)
    requires choices != [] && Offers(choices) == [o] + Offers(choices[1..])
    requires EndResult(choices) == EndResult(choices[1..])
    requires SwallowFrom(choices) == Later(SwallowFrom(choices[1..]), 1)
    requires Stored(cfg, 1 + |Expand(cfg, items)|, o)
    requires Outcome(cfg, items + [o.item], choices[1..], shutdown, endIo, l, out)
    ensures Outcome(cfg, items, choices, shutdown, endIo, l, out)
  {
    hide Stored, Ended, Offers, EndResult, SwallowFrom, Expand, Messages;
    TakenOne(cfg, items, o, Offers(choices[1..]));
  }

  lemma OutcomeFails(
    cfg: Config, items: seq<Item>, choices: seq<Choice>, o: Offer, shutdown: bool, endIo: Io, l: Log)
    requires choices != [] && Offers(choices) == [o] + Offers(choices[1..])
    requires SwallowFrom(choices) == Later(SwallowFrom(choices[1..]), 1)
    requires !Stored(cfg, 1 + |Expand(cfg, items)|, o) && Failed(cfg, l, items, o)
    ensures Outcome(cfg, items, choices, shutdown, endIo, Abort(l), Returned(false, true))
  {
    hide Stored, Ended, Offers, EndResult, SwallowFrom, Expand, Messages, Block;
    TakenOne(cfg, items, o, Offers(choices[1..]));
  }

  lemma CancelOutcome(cfg: Config, l: Log, items: seq<Item>, choices: seq<Choice>, shutdown: bool, endIo: Io)
    requires choices != [] && choices[0].CtxDone?
    requires Holds(cfg, l, items)
    ensures var (t, out) := Looped(cfg, l, choices, shutdown, endIo);
            Outcome(cfg, items, choices, shutdown, endIo, t, out)
  {
    hide Holds, Failed, Finalize, Drained, Ended, Expand, Messages, Block, Stored, Abort, FirstSession, BatchOffers;
    var batch := choices[0].cancelBatch;
    DrainedTakes(cfg, l, items, batch);
    DrainedEnds(cfg, l, items, batch, EndResult(choices).value, shutdown, endIo);
  }

  lemma ResultOutcome(cfg: Config, l: Log, items: seq<Item>, choices: seq<Choice>, shutdown: bool, endIo: Io)
    requires choices != [] && choices[0].ResultReady?
    requires Holds(cfg, l, items)
    ensures var (t, out) := Looped(cfg, l, choices, shutdown, endIo);
            Outcome(cfg, items, choices, shutdown, endIo, t, out)
  {
    hide Holds, Failed, Finalize, Drained, Ended, Expand, Messages, Block, Stored, Abort, FirstSession, BatchOffers;
    DrainedTakes(cfg, l, items, choices[0].resultBatch);
    DrainedEnds(cfg, l, items, choices[0].resultBatch, choices[0].result, shutdown, endIo);
  }

  lemma ClosedOutcome(cfg: Config, l: Log, items: seq<Item>, choices: seq<Choice>, shutdown: bool, endIo: Io)
    requires choices != [] && (choices[0].MessagesClosed? || choices[0].ResultClosed?)
    requires Holds(cfg, l, items)
    ensures var (t, out) := Looped(cfg, l, choices, shutdown, endIo);
            Outcome(cfg, items, choices, shutdown, endIo, t, out)
  {
    hide Holds, Failed, Finalize, Drained, Ended, Expand, Messages, Block, Stored, Abort, FirstSession, BatchOffers;
    HoldsIs(cfg, l, items);
    FinalizeEnds(l, EndResult(choices).value, shutdown, endIo);
  }

  lemma HoldsIs(cfg: Config, l: Log, items: seq<Item>)
    requires Holds(cfg, l, items)
    ensures l.rows == FirstRow() + Expand(cfg, items) && l.nextSeq == |l.rows|
    ensures l.bsid == FirstSession(Messages(items)) && l.updates == []
  {
  }

  lemma DrainedEnds(
    cfg: Config, l: Log, items: seq<Item>, batch: seq<(AgentMessage, Io, Io)>, r: AgentResult,
    shutdown: bool, endIo: Io)
    requires Holds(cfg, l, items)
    ensures var (l', ok) := Drained(cfg, l, batch);
            var offers := BatchOffers(batch);
            var taken := Taken(cfg, items, offers);
            var rows := FirstRow() + Expand(cfg, taken);
            var t := Finalize(l', r, shutdown, endIo);
            && (ok ==> Ended(t, rows, |rows|, r, shutdown, FirstSession(Messages(taken)), endIo))
            && (!ok && |items| <= |taken| < |items| + |offers| ==>
                 var o := offers[|taken| - |items|];
                 var more := rows + (if o.first.inserted then FirstOf(Block(cfg, |rows|, o.item)) else []);
                 && Ended(t, more, |more| + 1, r, shutdown, FirstSession(Messages(taken + [o.item])), endIo)
                 && Abort(l').rows == more && Abort(l').updates == [Update("failed", "persist failure")])
  {
    hide Finalize, Drained, Ended, Expand, Messages, Block, Stored, FirstSession;
    DrainedTakes(cfg, l, items, batch);
    var l' := Drained(cfg, l, batch).0;
    FinalizeEnds(l', r, shutdown, endIo);
  }

  /** Whatever the choices and the failures, the log the loop leaves is the one
      that the offers, the inserts and the result ask for. */
  lemma {:induction false} LoopedOutcome(
    cfg: Config, l: Log, items: seq<Item>, choices: seq<Choice>, shutdown: bool, endIo: Io)
    requires Holds(cfg, l, items)
    ensures var (t, out) := Looped(cfg, l, choices, shutdown, endIo);
            Outcome(cfg, items, choices, shutdown, endIo, t, out)
    decreases |choices|
  {
    hide Holds, Failed, Outcome, OnMessage, Persist, Finalize, Drained, Stored, Abort;
    if choices == [] {
      HoldsIs(cfg, l, items);
      NoOutcome(cfg, l, items, shutdown, endIo);
    } else {
      var rest := choices[1..];
      match choices[0] {
        case TickerFired(due, ms, io) =>
          if due {
            var o := Offer(Beat(ms), io, io);
            OfferBeat(cfg, l, items, ms, io);
            var (l1, ok) := Persist(l, Heartbeat(ms), io);
            if ok {
              LoopedOutcome(cfg, l1, items + [Beat(ms)], rest, shutdown, endIo);
              var (t, out) := Looped(cfg, l1, rest, shutdown, endIo);
              OutcomeCons(cfg, items, choices, o, shutdown, endIo, t, out);
            } else {
              OutcomeFails(cfg, items, choices, o, shutdown, endIo, l1);
            }
          } else {
            LoopedOutcome(cfg, l, items, rest, shutdown, endIo);
            var (t, out) := Looped(cfg, l, rest, shutdown, endIo);
            OutcomeSame(cfg, items, choices, shutdown, endIo, t, out);
          }
        case MessageReady(m, io1, io2) =>
          var o := Offer(Msg(m), io1, io2);
          OfferMessage(cfg, l, items, m, io1, io2);
          var (l1, ok) := OnMessage(cfg, l, m, io1, io2);
          if ok {
            LoopedOutcome(cfg, l1, items + [Msg(m)], rest, shutdown, endIo);
            var (t, out) := Looped(cfg, l1, rest, shutdown, endIo);
            OutcomeCons(cfg, items, choices, o, shutdown, endIo, t, out);
          } else {
            OutcomeFails(cfg, items, choices, o, shutdown, endIo, l1);
          }
        case CtxDone(_, _) => CancelOutcome(cfg, l, items, choices, shutdown, endIo);
        case ResultReady(_, _) => ResultOutcome(cfg, l, items, choices, shutdown, endIo);
        case _ => ClosedOutcome(cfg, l, items, choices, shutdown, endIo);
      }
    }
  }

  lemma NoOutcome(cfg: Config, l: Log, items: seq<Item>, shutdown: bool, endIo: Io)
    requires l.rows == FirstRow() + Expand(cfg, items) && l.updates == []
    ensures Outcome(cfg, items, [], shutdown, endIo, l, Running)
  {
    hide Expand;
  }

  lemma OutcomeSame(
    cfg: Config, items: seq<Item>, choices: seq<Choice>, shutdown: bool, endIo: Io, l: Log, out: Out)
    requires choices != [] && choices[0].TickerFired? && !choices[0].due
    requires Outcome(cfg, items, choices[1..], shutdown, endIo, l, out)
    ensures Outcome(cfg, items, choices, shutdown, endIo, l, out)
  {
    hide Expand, Taken, Ended, Messages, FirstOf, Block, Offers, EndResult, SwallowFrom;
    NotDue(choices);
  }

  lemma NotDue(choices: seq<Choice>)
    requires choices != [] && choices[0].TickerFired? && !choices[0].due
    ensures Offers(choices) == Offers(choices[1..]) && EndResult(choices) == EndResult(choices[1..])
    ensures SwallowFrom(choices) == SwallowFrom(choices[1..])
  {
    assert [] + Offers(choices[1..]) == Offers(choices[1..]);
  }

  lemma WrittenCons(o: Offer, more: seq<Offer>)
    ensures AllWritten([o] + more) <==> o.first.written && o.second.written && AllWritten(more)
  {
    var offers := [o] + more;
    assert offers[0] == o && forall i :: 0 <= i < |more| ==> offers[i + 1] == more[i];
    if AllWritten(offers) {
      forall i | 0 <= i < |more|
        ensures more[i].first.written && more[i].second.written
      {
        assert more[i] == offers[i + 1];
      }
    }
  }

  lemma {:induction false} DrainedWritten(cfg: Config, l: Log, batch: seq<(AgentMessage, Io, Io)>)
    requires l.wire == l.rows && AllWritten(BatchOffers(batch))
    ensures Drained(cfg, l, batch).0.wire == Drained(cfg, l, batch).0.rows
    decreases |batch|
  {
    hide OnMessage, Block, AllWritten;
    if batch != [] {
      WrittenCons(Offer(Msg(batch[0].0), batch[0].1, batch[0].2), BatchOffers(batch[1..]));
      MessageRows(cfg, l, batch[0].0, batch[0].1, batch[0].2);
      if OnMessage(cfg, l, batch[0].0, batch[0].1, batch[0].2).1 {
        DrainedWritten(cfg, OnMessage(cfg, l, batch[0].0, batch[0].1, batch[0].2).0, batch[1..]);
      }
    }
  }

  lemma FinalizeWritten(l: Log, r: AgentResult, shutdown: bool, io: Io)
    requires l.wire == l.rows && io.written
    ensures Finalize(l, r, shutdown, io).wire == Finalize(l, r, shutdown, io).rows
  {
    hide EndStatus;
  }

  lemma WrittenFirst(choices: seq<Choice>)
    requires choices != [] && AllWritten(Offers(choices))
    ensures var c := choices[0];
            && (c.CtxDone? ==> AllWritten(BatchOffers(c.cancelBatch)))
            && (c.ResultReady? ==> AllWritten(BatchOffers(c.resultBatch)))
            && (c.MessageReady? ==> c.io1.written && c.io2.written)
            && (c.TickerFired? && c.due ==> c.tickIo.written)
            && (c.MessageReady? || c.TickerFired? ==> AllWritten(Offers(choices[1..])))
  {
    hide BatchOffers, AllWritten;
    var more := Offers(choices[1..]);
    match choices[0] {
      case MessageReady(m, io1, io2) => WrittenCons(Offer(Msg(m), io1, io2), more);
      case TickerFired(due, ms, io) =>
        if due { WrittenCons(Offer(Beat(ms), io, io), more); } else { NotDue(choices); }
      case _ =>
    }
  }

  /** As long as the client is there it gets every row. */
  lemma {:induction false} LoopedWritten(cfg: Config, l: Log, choices: seq<Choice>, shutdown: bool, endIo: Io)
    requires l.wire == l.rows && AllWritten(Offers(choices)) && endIo.written
    ensures Looped(cfg, l, choices, shutdown, endIo).0.wire == Looped(cfg, l, choices, shutdown, endIo).0.rows
    decreases |choices|
  {
    hide OnMessage, Finalize, Drained, Block, Or, Stored, Offers, AllWritten;
    if choices != [] {
      var rest := choices[1..];
      WrittenFirst(choices);
      match choices[0] {
        case CtxDone(batch, waited) =>
          DrainedWritten(cfg, l, batch);
          FinalizeWritten(Drained(cfg, l, batch).0, Or(waited, Disconnected), shutdown, endIo);
        case ResultReady(r, batch) =>
          DrainedWritten(cfg, l, batch);
          FinalizeWritten(Drained(cfg, l, batch).0, r, shutdown, endIo);
        case MessagesClosed(waited) => FinalizeWritten(l, Or(waited, NoResult), shutdown, endIo);
        case ResultClosed => FinalizeWritten(l, EmptyResult, shutdown, endIo);
        case TickerFired(due, ms, io) =>
          LoopedWritten(cfg, if due then Persist(l, Heartbeat(ms), io).0 else l, rest, shutdown, endIo);
        case MessageReady(m, io1, io2) =>
          MessageRows(cfg, l, m, io1, io2);
          LoopedWritten(cfg, OnMessage(cfg, l, m, io1, io2).0, rest, shutdown, endIo);
      }
    }
  }

  lemma StartHolds(cfg: Config)
    ensures Holds(cfg, Start, [])
  {
    assert FirstRow() + Expand(cfg, []) == FirstRow();
  }

  lemma StartWritten()
    ensures Start.wire == Start.rows
  {
  }

  // ---------- the loop ----------

  /** The select loop. Whatever the choices, it keeps the discipline of the log:
      one terminal row update, at most one end row and that one last, no gap but
      in the cancel branch; and the log it leaves is `Outcome`'s. */
  method PumpAgentSession(p: Pump, choices: seq<Choice>, shutdown: bool, endIo: Io) returns (out: Out)
    requires p.View() == Start
    modifies p, p.builder
    ensures (p.View(), out) == Looped(p.cfg, Start, choices, shutdown, endIo)
    ensures Outcome(p.cfg, [], choices, shutdown, endIo, p.View(), out)
    ensures AllWritten(Offers(choices)) && endIo.written ==> p.View().wire == p.View().rows
    ensures out.Returned? ==> ClosedLog(p.View(), out.swallowed, out.failed)
    ensures out.Running? ==> OpenLog(p.View(), false)
  {
    hide *;
    out := RunSelect(p, choices, shutdown, endIo);
    LoopDiscipline(p.cfg, choices, shutdown, endIo);
    StartHolds(p.cfg);
    LoopedOutcome(p.cfg, Start, [], choices, shutdown, endIo);
    if AllWritten(Offers(choices)) && endIo.written {
      StartWritten();
      LoopedWritten(p.cfg, Start, choices, shutdown, endIo);
    }
  }

  /** The `for` around the `select`. */
  method RunSelect(p: Pump, choices: seq<Choice>, shutdown: bool, endIo: Io) returns (out: Out)
    requires p.View() == Start
    modifies p, p.builder
    ensures (p.View(), out) == Looped(p.cfg, Start, choices, shutdown, endIo)
  {
    hide OnMessage, Finalize, Abort, Persist, Drained, Announces;
    var i := 0;
    assert choices[0..] == choices;
    while i < |choices|
      invariant i <= |choices|
      invariant Looped(p.cfg, p.View(), choices[i..], shutdown, endIo) == Looped(p.cfg, Start, choices, shutdown, endIo)
    {
      assert choices[i..][1..] == choices[i + 1..];
      match choices[i] {
        case CtxDone(batch, waited) =>
          var ok := p.DrainRemaining(batch);
          p.FinalizeStream(Or(waited, Disconnected), shutdown, endIo);
          return Returned(!ok, !endIo.inserted);
        case TickerFired(due, ms, io) =>
          if due {
            var ok := p.Heartbeat(ms, io);
            if !ok {
              p.AbortStream();
              return Returned(false, true);
            }
          }
        case MessageReady(m, io1, io2) =>
          var ok := p.HandleMessage(m, io1, io2);
          if !ok {
            p.AbortStream();
            return Returned(false, true);
          }
        case MessagesClosed(waited) =>
          p.FinalizeStream(Or(waited, NoResult), shutdown, endIo);
          return Returned(false, !endIo.inserted);
        case ResultReady(r, batch) =>
          var ok := p.DrainRemaining(batch);
          if !ok {
            p.AbortStream();
            return Returned(false, true);
          }
          p.FinalizeStream(r, shutdown, endIo);
          return Returned(false, !endIo.inserted);
        case ResultClosed =>
          p.FinalizeStream(EmptyResult, shutdown, endIo);
          return Returned(false, !endIo.inserted);
      }
      i := i + 1;
    }
    assert choices[|choices|..] == [];
    return Running;
  }

  // ---------- the loop is a run of the step relation ----------

  ghost predicate Reach(cfg: Config, s: Sys, t: Sys) { exists run :: Exec(cfg, s, run) == Some(t) }

  lemma ReachSelf(cfg: Config, s: Sys)
    ensures Reach(cfg, s, s)
  {
    assert Exec(cfg, s, []) == Some(s);
  }

  lemma ReachLast(cfg: Config, s: Sys, t: Sys, a: Label, u: Sys)
    requires Reach(cfg, s, t) && Next(cfg, t, a) == Some(u)
    ensures Reach(cfg, s, u)
  {
    hide Next;
    var run :| Exec(cfg, s, run) == Some(t);
    ExecSnoc(cfg, s, run, t, a, u);
  }

  /** Nothing queued, nothing held, not closed. */
  predicate PipeIdle(s: Sys) { s.pipe.q == [] && s.pipe.relay.Top? && !s.pipe.closed }

  /** The pump is at its select with this log and nothing has gone wrong. */
  predicate Ready(s: Sys, l: Log) {
    && s.pc.Select? && s.chan.Open? && s.log == l && PipeIdle(s)
    && !s.requested && !s.shutdown && !s.failed && !s.swallowed
  }

  /** A message through the pipe into the pump. */
  lemma MessageRun(cfg: Config, z: Sys, s: Sys, m: AgentMessage, io1: Io, io2: Io) returns (t: Sys)
    requires Reach(cfg, z, s) && PipeIdle(s) && Reading(s.pc)
    ensures Reach(cfg, z, t) && PipeIdle(t)
    ensures t.chan == s.chan && t.requested == s.requested && t.shutdown == s.shutdown
    ensures var (l, ok) := OnMessage(cfg, s.log, m, io1, io2);
            && t.log == (if ok || s.pc.CancelDrain? then l else Abort(l))
            && t.pc == (if ok then s.pc else if s.pc.CancelDrain? then CancelWait else Finished)
            && t.swallowed == (s.swallowed || (!ok && s.pc.CancelDrain?))
            && t.failed == (s.failed || (!ok && !s.pc.CancelDrain?))
            && t.items == (if ok then s.items + [Msg(m)] else s.items)
  {
    hide OnMessage, Abort, Received, Reach, Reading;
    var s1 := s.(pipe := s.pipe.(q := [m], kicks := s.pipe.kicks + 1, accepted := s.pipe.accepted + [m]));
    assert [] + [m] == [m] && [m][1..] == [];
    assert Next(cfg, s, Pipe(MP.Send(m))) == Some(s1);
    var s2 := s1.(pipe := s1.pipe.(q := [], relay := MP.Holding(m)));
    assert Next(cfg, s1, Pipe(MP.Enter)) == Some(s2);
    t := Received(cfg, s2, io1, io2);
    assert Next(cfg, s2, Recv(io1, io2)) == Some(t);
    ReachLast(cfg, z, s, Pipe(MP.Send(m)), s1);
    ReachLast(cfg, z, s1, Pipe(MP.Enter), s2);
    ReachLast(cfg, z, s2, Recv(io1, io2), t);
    ReceivedCases(cfg, s2, io1, io2);
  }

  lemma {:induction false} BatchRun(cfg: Config, z: Sys, s: Sys, batch: seq<(AgentMessage, Io, Io)>) returns (t: Sys)
    requires Reach(cfg, z, s) && PipeIdle(s) && (s.pc.CancelDrain? || s.pc.ResultDrain?)
    requires Holds(cfg, s.log, s.items)
    ensures Reach(cfg, z, t) && t.items == Taken(cfg, s.items, BatchOffers(batch))
    ensures t.chan == s.chan && t.requested == s.requested && t.shutdown == s.shutdown
    ensures var (l, ok) := Drained(cfg, s.log, batch);
            && t.log == (if ok || s.pc.CancelDrain? then l else Abort(l))
            && t.pc == (if ok then s.pc else if s.pc.CancelDrain? then CancelWait else Finished)
            && t.swallowed == (s.swallowed || (!ok && s.pc.CancelDrain?))
            && t.failed == (s.failed || (!ok && !s.pc.CancelDrain?))
    decreases |batch|
  {
    hide OnMessage, Abort, Reach, PipeIdle, Taken, Holds, Stored, Expand;
    t := s;
    TakenNone(cfg, s.items);
    if batch != [] {
      var o := Offer(Msg(batch[0].0), batch[0].1, batch[0].2);
      OfferMessage(cfg, s.log, s.items, batch[0].0, batch[0].1, batch[0].2);
      TakenOne(cfg, s.items, o, BatchOffers(batch[1..]));
      t := MessageRun(cfg, z, s, batch[0].0, batch[0].1, batch[0].2);
      if OnMessage(cfg, s.log, batch[0].0, batch[0].1, batch[0].2).1 {
        t := BatchRun(cfg, z, t, batch[1..]);
      }
    }
  }

  /** The end of the stream, with the shutdown mark set just before if it was set at all. */
  lemma EndRun(cfg: Config, z: Sys, s: Sys, shutdown: bool, endIo: Io) returns (t: Sys)
    requires Reach(cfg, z, s) && s.pc.Ending? && !s.requested && !s.shutdown
    ensures Reach(cfg, z, t) && t.pc.Finished?
    ensures t.log == Finalize(s.log, s.pc.result, shutdown, endIo)
    ensures t.swallowed == s.swallowed && t.failed == (s.failed || !endIo.inserted) && t.items == s.items
  {
    hide Finalize, Reach;
    var s1 := s;
    if shutdown {
      s1 := Next(cfg, s, ShutdownAll).value;
      ReachLast(cfg, z, s, ShutdownAll, s1);
    }
    t := Next(cfg, s1, EndStream(endIo)).value;
    ReachLast(cfg, z, s1, EndStream(endIo), t);
  }

  /** Waiting for the result, in the cancel or the closed branch. */
  lemma WaitRun(cfg: Config, z: Sys, s: Sys, waited: Option<AgentResult>) returns (t: Sys)
    requires Reach(cfg, z, s) && Waiting(s.pc) && s.chan.Open?
    ensures Reach(cfg, z, t)
    ensures t.pc == Ending(Or(waited, if s.pc.CancelWait? then Disconnected else NoResult))
    ensures t.log == s.log && t.requested == s.requested && t.shutdown == s.shutdown
    ensures t.swallowed == s.swallowed && t.failed == s.failed && t.items == s.items
  {
    hide Reach;
    match waited {
      case Some(r) =>
        var s1 := s.(chan := Buffered(r), sent := Some(r));
        ReachLast(cfg, z, s, SendResult(r), s1);
        t := s1.(pc := Ending(r), chan := Empty);
        ReachLast(cfg, z, s1, WaitResult, t);
      case None =>
        t := NoneArrived(s);
        ReachLast(cfg, z, s, WaitTimeout, t);
    }
  }

  lemma CancelRun(
    cfg: Config, z: Sys, s: Sys, batch: seq<(AgentMessage, Io, Io)>, waited: Option<AgentResult>,
    shutdown: bool, endIo: Io)
    returns (t: Sys)
    requires Reach(cfg, z, s) && Ready(s, s.log) && Holds(cfg, s.log, s.items)
    ensures Reach(cfg, z, t) && t.pc.Finished? && t.items == Taken(cfg, s.items, BatchOffers(batch))
    ensures t.log == Finalize(Drained(cfg, s.log, batch).0, Or(waited, Disconnected), shutdown, endIo)
    ensures t.swallowed == !Drained(cfg, s.log, batch).1 && t.failed == !endIo.inserted
  {
    hide Finalize, Drained, Abort, Reach, Or, Holds, Taken;
    var s1 := s.(cancelled := true);
    ReachLast(cfg, z, s, ClientGone, s1);
    var s2 := s1.(pc := CancelDrain);
    ReachLast(cfg, z, s1, SeeCancel, s2);
    var s3 := BatchRun(cfg, z, s2, batch);
    if s3.pc.CancelDrain? {
      var s4 := LeaveDrain(s3);
      ReachLast(cfg, z, s3, DrainTimeout, s4);
      s3 := s4;
    }
    var s5 := WaitRun(cfg, z, s3, waited);
    t := EndRun(cfg, z, s5, shutdown, endIo);
  }

  lemma ResultRun(
    cfg: Config, z: Sys, s: Sys, r: AgentResult, batch: seq<(AgentMessage, Io, Io)>, shutdown: bool, endIo: Io)
    returns (t: Sys)
    requires Reach(cfg, z, s) && Ready(s, s.log) && Holds(cfg, s.log, s.items)
    ensures Reach(cfg, z, t) && t.pc.Finished? && !t.swallowed && t.items == Taken(cfg, s.items, BatchOffers(batch))
    ensures var (l, ok) := Drained(cfg, s.log, batch);
            && t.log == (if ok then Finalize(l, r, shutdown, endIo) else Abort(l))
            && t.failed == (!ok || !endIo.inserted)
  {
    hide Finalize, Drained, Abort, Reach, Holds, Taken;
    var s1 := s.(chan := Buffered(r), sent := Some(r));
    ReachLast(cfg, z, s, SendResult(r), s1);
    var s2 := s1.(pc := ResultDrain(r), chan := Empty);
    ReachLast(cfg, z, s1, TakeResult, s2);
    t := BatchRun(cfg, z, s2, batch);
    if t.pc.ResultDrain? {
      var s4 := LeaveDrain(t);
      ReachLast(cfg, z, t, DrainTimeout, s4);
      t := EndRun(cfg, z, s4, shutdown, endIo);
    }
  }

  lemma ClosedRun(cfg: Config, z: Sys, s: Sys, waited: Option<AgentResult>, shutdown: bool, endIo: Io) returns (t: Sys)
    requires Reach(cfg, z, s) && Ready(s, s.log)
    ensures Reach(cfg, z, t) && t.pc.Finished? && !t.swallowed && t.failed == !endIo.inserted && t.items == s.items
    ensures t.log == Finalize(s.log, Or(waited, NoResult), shutdown, endIo)
  {
    hide Finalize, Reach, Or;
    var s1 := s.(pipe := s.pipe.(closed := true, kicks := s.pipe.kicks + 1));
    ReachLast(cfg, z, s, Pipe(MP.Close), s1);
    var s2 := s1.(pipe := s1.pipe.(relay := MP.Done));
    ReachLast(cfg, z, s1, Pipe(MP.Enter), s2);
    var s3 := s2.(pc := ClosedWait);
    ReachLast(cfg, z, s2, SeeClosed, s3);
    var s4 := WaitRun(cfg, z, s3, waited);
    t := EndRun(cfg, z, s4, shutdown, endIo);
  }

  lemma EmptyRun(cfg: Config, z: Sys, s: Sys, shutdown: bool, endIo: Io) returns (t: Sys)
    requires Reach(cfg, z, s) && Ready(s, s.log)
    ensures Reach(cfg, z, t) && t.pc.Finished? && !t.swallowed && t.failed == !endIo.inserted && t.items == s.items
    ensures t.log == Finalize(s.log, EmptyResult, shutdown, endIo)
  {
    hide Finalize, Reach;
    var s1 := s.(chan := Empty);
    ReachLast(cfg, z, s, CloseResult, s1);
    var s2 := s1.(pc := Ending(EmptyResult));
    ReachLast(cfg, z, s1, TakeEmpty, s2);
    t := EndRun(cfg, z, s2, shutdown, endIo);
  }

  lemma TickRun(cfg: Config, z: Sys, s: Sys, ms: int, io: Io) returns (t: Sys)
    requires Reach(cfg, z, s) && Ready(s, s.log)
    ensures Reach(cfg, z, t)
    ensures var (l, ok) := Persist(s.log, Heartbeat(ms), io);
            && (ok ==> Ready(t, l) && t.log == l && t.items == s.items + [Beat(ms)])
            && (!ok ==> t.items == s.items && t.pc.Finished? && t.log == Abort(l) && !t.swallowed && t.failed)
  {
    hide Persist, Abort, Reach;
    t := Next(cfg, s, Tick(ms, io)).value;
    ReachLast(cfg, z, s, Tick(ms, io), t);
  }

  lemma TickTakes(cfg: Config, z: Sys, s: Sys, ms: int, io: Io, more: seq<Offer>) returns (t: Sys)
    requires Reach(cfg, z, s) && Ready(s, s.log) && Holds(cfg, s.log, s.items)
    ensures Reach(cfg, z, t)
    ensures var (l, ok) := Persist(s.log, Heartbeat(ms), io);
            && t.log == (if ok then l else Abort(l))
            && (ok ==> Ready(t, t.log) && Holds(cfg, t.log, t.items))
            && (!ok ==> t.pc.Finished? && !t.swallowed && t.failed)
            && Taken(cfg, s.items, [Offer(Beat(ms), io, io)] + more)
               == if ok then Taken(cfg, t.items, more) else t.items
  {
    hide Persist, Abort, Reach, Ready, Holds, Taken, Stored, Expand, Failed;
    t := TickRun(cfg, z, s, ms, io);
    OfferBeat(cfg, s.log, s.items, ms, io);
    TakenOne(cfg, s.items, Offer(Beat(ms), io, io), more);
    ReadyLog(t);
  }

  lemma MessageTakes(
    cfg: Config, z: Sys, s: Sys, m: AgentMessage, io1: Io, io2: Io, more: seq<Offer>) returns (t: Sys)
    requires Reach(cfg, z, s) && Ready(s, s.log) && Holds(cfg, s.log, s.items)
    ensures Reach(cfg, z, t)
    ensures var (l, ok) := OnMessage(cfg, s.log, m, io1, io2);
            && t.log == (if ok then l else Abort(l))
            && (ok ==> Ready(t, t.log) && Holds(cfg, t.log, t.items))
            && (!ok ==> t.pc.Finished? && !t.swallowed && t.failed)
            && Taken(cfg, s.items, [Offer(Msg(m), io1, io2)] + more)
               == if ok then Taken(cfg, t.items, more) else t.items
  {
    hide OnMessage, Abort, Reach, Ready, Holds, Taken, Stored, Expand, Failed, PipeIdle;
    ReadyReads(s);
    t := MessageRun(cfg, z, s, m, io1, io2);
    OfferMessage(cfg, s.log, s.items, m, io1, io2);
    TakenOne(cfg, s.items, Offer(Msg(m), io1, io2), more);
    if OnMessage(cfg, s.log, m, io1, io2).1 { ReadyAgain(s, t); }
  }

  /** The loop is an implementation of the step relation: whatever it chooses,
      some run of backend, pipe and pump takes in the same messages and heartbeats
      and has its outcome, so that everything proved of all runs holds of it. */
  lemma {:induction false} LoopRun(cfg: Config, z: Sys, s: Sys, choices: seq<Choice>, shutdown: bool, endIo: Io)
    returns (t: Sys)
    requires Reach(cfg, z, s) && Ready(s, s.log) && Holds(cfg, s.log, s.items)
    ensures Reach(cfg, z, t) && t.items == Taken(cfg, s.items, Offers(choices))
    ensures var (l, out) := Looped(cfg, s.log, choices, shutdown, endIo);
            && t.log == l
            && (out.Running? ==> Ready(t, l))
            && (out.Returned? ==> t.pc.Finished? && t.swallowed == out.swallowed && t.failed == out.failed)
    decreases |choices|
  {
    hide OnMessage, Finalize, Drained, Persist, Abort, Reach, Or, Ready, Holds, Taken, BatchOffers;
    t := s;
    TakenNone(cfg, s.items);
    if choices != [] {
      var rest := choices[1..];
      match choices[0] {
        case CtxDone(batch, waited) =>
          t := CancelRun(cfg, z, s, batch, waited, shutdown, endIo);
        case TickerFired(due, ms, io) =>
          if !due {
            NotDue(choices);
            t := LoopRun(cfg, z, t, rest, shutdown, endIo);
          } else {
            t := TickTakes(cfg, z, s, ms, io, Offers(rest));
            if Persist(s.log, Heartbeat(ms), io).1 { t := LoopRun(cfg, z, t, rest, shutdown, endIo); }
          }
        case MessageReady(m, io1, io2) =>
          t := MessageTakes(cfg, z, s, m, io1, io2, Offers(rest));
          if OnMessage(cfg, s.log, m, io1, io2).1 { t := LoopRun(cfg, z, t, rest, shutdown, endIo); }
        case MessagesClosed(waited) => t := ClosedRun(cfg, z, s, waited, shutdown, endIo);
        case ResultReady(r, batch) => t := ResultRun(cfg, z, s, r, batch, shutdown, endIo);
        case ResultClosed => t := EmptyRun(cfg, z, s, shutdown, endIo);
      }
    }
  }

  lemma ReadyLog(s: Sys)
    ensures forall l :: Ready(s, l) ==> s.log == l && Ready(s, s.log)
  {
  }

  lemma ReadyReads(s: Sys)
    requires Ready(s, s.log)
    ensures PipeIdle(s) && Reading(s.pc) && s.pc.Select? && !s.swallowed && !s.failed
  {
  }

  lemma ReadyAgain(s: Sys, t: Sys)
    requires Ready(s, s.log) && t.pc == s.pc && t.chan == s.chan && PipeIdle(t)
    requires t.requested == s.requested && t.shutdown == s.shutdown && !t.failed && !t.swallowed
    ensures Ready(t, t.log)
  {
  }

  /** So it keeps the discipline of the log. */
  lemma LoopDiscipline(cfg: Config, choices: seq<Choice>, shutdown: bool, endIo: Io)
    ensures var (l, out) := Looped(cfg, Start, choices, shutdown, endIo);
            && (out.Returned? ==> ClosedLog(l, out.swallowed, out.failed))
            && (out.Running? ==> OpenLog(l, false))
  {
    hide OpenLog, ClosedLog, Exec, Looped;
    assert Ready(Init, Init.log);
    ReachSelf(cfg, Init);
    StartHolds(cfg);
    var t := LoopRun(cfg, Init, Init, choices, shutdown, endIo);
    var run :| Exec(cfg, Init, run) == Some(t);
    LogDiscipline(cfg, run);
  }
}
