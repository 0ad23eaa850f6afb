/** What the choices of the select amount to: the messages and heartbeats handed
    over, the result the stream ends with, and the log that has to come of it. */
module PumpChoices {
  import opened Wrappers
  import opened Envelope
  import opened PumpLog
  import opened PumpSystem
  import opened PumpRuns

  /** One ready arm of the select and what its waits and drains ran into.  A
      drain hands over the messages received before the channel closed or the
      time was up; `waited` is None after a timeout or a closed, empty channel. */
  datatype Choice =
    | CtxDone(cancelBatch: seq<(AgentMessage, Io, Io)>, waitedCancel: Option<AgentResult>)
    | TickerFired(due: bool, elapsedMs: int, tickIo: Io)
    | MessageReady(message: AgentMessage, io1: Io, io2: Io)
    | MessagesClosed(waitedClosed: Option<AgentResult>)
    | ResultReady(result: AgentResult, resultBatch: seq<(AgentMessage, Io, Io)>)
    | ResultClosed

  /** Whether the loop has returned, with a failure swallowed or an insert failed. */
  datatype Out = Running | Returned(swallowed: bool, failed: bool)

  /** A message or heartbeat with what becomes of its rows' writes. */
  datatype Offer = Offer(item: Item, first: Io, second: Io)

  function BatchOffers(batch: seq<(AgentMessage, Io, Io)>): seq<Offer> {
    if batch == [] then [] else [Offer(Msg(batch[0].0), batch[0].1, batch[0].2)] + BatchOffers(batch[1..])
  }

  /** All that is handed over, in order, up to the arm that returns. */
  function Offers(choices: seq<Choice>): seq<Offer>
    decreases |choices|
  {
    if choices == [] then []
    else
      match choices[0]
      case CtxDone(batch, _) => BatchOffers(batch)
      case TickerFired(due, ms, io) => (if due then [Offer(Beat(ms), io, io)] else []) + Offers(choices[1..])
      case MessageReady(m, io1, io2) => [Offer(Msg(m), io1, io2)] + Offers(choices[1..])
      case MessagesClosed(_) => []
      case ResultReady(_, batch) => BatchOffers(batch)
      case ResultClosed => []
  }

  /** The result the last arm received, or what stands in for a missing one. */
  function EndResult(choices: seq<Choice>): Option<AgentResult>
    decreases |choices|
  {
    if choices == [] then None
    else
      match choices[0]
      case CtxDone(_, None) => Some(AgentResult("cancelled", "", "client disconnected", ""))
      case CtxDone(_, Some(r)) => Some(r)
      case TickerFired(_, _, _) => EndResult(choices[1..])
      case MessageReady(_, _, _) => EndResult(choices[1..])
      case MessagesClosed(None) => Some(AgentResult("failed", "", "backend exited without a Result", ""))
      case MessagesClosed(Some(r)) => Some(r)
      case ResultReady(r, _) => Some(r)
      case ResultClosed => Some(AgentResult("failed", "", "backend Result channel closed empty", ""))
  }

  /** The first offer whose failure would be swallowed: that of the cancel drain. */
  function SwallowFrom(choices: seq<Choice>): Option<nat>
    decreases |choices|
  {
    if choices == [] then None
    else
      match choices[0]
      case CtxDone(_, _) => Some(0)
      case TickerFired(due, _, _) => Later(SwallowFrom(choices[1..]), if due then 1 else 0)
      case MessageReady(_, _, _) => Later(SwallowFrom(choices[1..]), 1)
      case _ => None
  }

  function Later(n: Option<nat>, k: nat): Option<nat> { if n.Some? then Some(n.value + k) else None }

  /** All rows of the item go in. */
  predicate Stored(cfg: Config, n: nat, o: Offer) {
    var rows := |Block(cfg, n, o.item)|;
    rows == 0 || (o.first.inserted && (rows == 1 || o.second.inserted))
  }

  /** What gets into the log whole: everything up to the first failed insert. */
  function Taken(cfg: Config, items: seq<Item>, offers: seq<Offer>): seq<Item>
    decreases |offers|
  {
    if offers == [] || !Stored(cfg, 1 + |Expand(cfg, items)|, offers[0]) then items
    else Taken(cfg, items + [offers[0].item], offers[1..])
  }

  /** Every line goes out to the client. */
  predicate AllWritten(offers: seq<Offer>) {
    forall i :: 0 <= i < |offers| ==> offers[i].first.written && offers[i].second.written
  }

  /** A log behind `rows`, of which the next is to have the number `n`, that the
      end of the stream has been added to. */
  predicate Ended(l: Log, rows: seq<Line>, n: nat, r: AgentResult, shutdown: bool, session: string, io: Io) {
    if io.inserted then
      && |l.rows| == |rows| + 1 && l.rows[..|rows|] == rows && l.rows[|rows|].seqNo == n
      && |l.updates| == 1 && Announces(l.rows[|rows|].body, l.updates[0], r, shutdown, session)
    else
      l.rows == rows && l.updates == [Update("failed", "persist failure")]
  }

  function FirstOf(rows: seq<Line>): seq<Line> { if rows == [] then [] else [rows[0]] }

  /** What the loop has to leave behind: session_started, the rows of what was
      taken, and, once it has returned, the end of the stream; or, after a failed
      insert outside the cancel drain, no further row and a failed update. */
  predicate Outcome(cfg: Config, items: seq<Item>, choices: seq<Choice>, shutdown: bool, endIo: Io, l: Log, out: Out) {
    var offers := Offers(choices);
    var taken := Taken(cfg, items, offers);
    var k := |taken| - |items|;
    var rows := FirstRow() + Expand(cfg, taken);
    var r := EndResult(choices);
    && 0 <= k <= |offers|
    && if k == |offers| then
         if r.None? then l.rows == rows && l.updates == [] && out == Running
         else Ended(l, rows, |rows|, r.value, shutdown, FirstSession(Messages(taken)), endIo)
              && out == Returned(false, !endIo.inserted)
       else
         var o := offers[k];
         var more := rows + (if o.first.inserted then FirstOf(Block(cfg, |rows|, o.item)) else []);
         if SwallowFrom(choices).Some? && SwallowFrom(choices).value <= k && r.Some? then
           Ended(l, more, |more| + 1, r.value, shutdown, FirstSession(Messages(taken + [o.item])), endIo)
           && out == Returned(true, !endIo.inserted)
         else l.rows == more && l.updates == [Update("failed", "persist failure")] && out == Returned(false, true)
  }
}
