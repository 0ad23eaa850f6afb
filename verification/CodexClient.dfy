/** The locked sections of the Codex client, over its own fields, shown to be
    the steps of the call table's transition relation. */
module CodexClient {
  import opened Wrappers
  import opened CodexRpc

  /** An entry of the table; `ch` is its channel with room for one reply. */
  class PendingRPC {
    const rpcMethod: string
    var ch: Option<Reply>

    constructor (rpcMethod: string)
      ensures this.rpcMethod == rpcMethod && ch == None
    {
      this.rpcMethod, ch := rpcMethod, None;
    }

    /** A channel send that finds room: the caller proves it cannot block. */
    method Send(reply: Reply)
      requires ch.None?
      modifies this
      ensures ch == Some(reply)
    {
      ch := Some(reply);
    }
  }

  /** A response line from the process. */
  datatype Incoming = ResultLine(raw: string) | ErrorLine(code: int, message: string)

  function AsBody(rpcMethod: string, incoming: Incoming): Body {
    match incoming
    case ResultLine(raw) => Result(raw)
    case ErrorLine(code, message) => Rejected(rpcMethod, code, message)
  }

  datatype Begun = Refused(err: string) | Begun(id: Id, rpc: PendingRPC)

  class Client {
    var nextID: nat
    var pending: map<Id, PendingRPC>
    var processErr: Option<string>
    var processDone: Done
    ghost var everyCall: map<Id, PendingRPC>

    ghost predicate Shows(s: State)
      reads this, everyCall.Values
    {
      && nextID == s.next && processErr == s.exitErr && processDone == s.done
      && pending.Keys == s.pending && everyCall.Keys == s.calls.Keys
      && (forall id :: id in pending ==> id in everyCall && pending[id] == everyCall[id])
      && (forall i, j :: i in everyCall && j in everyCall && i != j ==> everyCall[i] != everyCall[j])
      && (forall id :: id in everyCall ==> everyCall[id].ch == s.calls[id].slot)
    }

    constructor ()
      ensures Shows(State(0, map[], {}, map[], None, Open, 0))
    {
      nextID, pending, processErr, processDone, everyCall := 0, map[], None, Open, map[];
    }

    /** The part of `request` up to the write. */
    method Begin(ctxErr: Option<string>, rpcMethod: string, ghost s: State) returns (r: Begun)
      requires Inv(s) && Shows(s)
      modifies this
      ensures r.Refused? <==> ctxErr.Some? || s.exitErr.Some?
      ensures r.Refused? ==> Shows(s) && Some(r.err) == if ctxErr.Some? then ctxErr else s.exitErr
      ensures r.Begun? ==> Shows(Next(s, Request)) && r.id == s.next + 1 && pending[r.id] == r.rpc
    {
      if ctxErr.Some? {
        return Refused(ctxErr.value);
      }
      if processErr.Some? {
        return Refused(processErr.value);
      }
      if processDone.NotMade? {
        processDone := Open;
      }
      nextID := nextID + 1;
      var pr := new PendingRPC(rpcMethod);
      assert forall id :: id in s.calls ==> CallOk(s, id);
      pending := pending[nextID := pr];
      everyCall := everyCall[nextID := pr];
      return Begun(nextID, pr);
    }

    /** A caller that gives up, whatever its reason, takes its entry out. */
    method Forget(id: Id, outcome: Outcome, ghost s: State)
      requires Shows(s) && Unreturned(s, id)
      modifies this
      ensures Shows(Return(s, id, outcome))
    {
      pending := pending - {id};
    }

    /** `handleResponse`: the entry leaves the table under the lock, the reply is
        sent after it; a response nobody waits for is dropped. */
    method HandleResponse(id: Id, incoming: Incoming, ghost s: State)
      requires Inv(s) && Shows(s)
      modifies this`pending, everyCall.Values
      ensures id !in s.pending ==> Shows(s)
      ensures id in s.pending ==>
        Shows(Next(Next(s, Response(id, AsBody(old(pending[id].rpcMethod), incoming))), Deliver(id)))
      ensures id in s.pending && incoming.ResultLine? ==>
        old(pending[id]).ch == Some(Answer(id, Result(incoming.raw)))
      ensures id in s.pending && incoming.ErrorLine? ==>
        old(pending[id]).ch == Some(Answer(id, Rejected(old(pending[id].rpcMethod), incoming.code, incoming.message)))
    {
      hide Next, Inv, CallOk;
      if id !in pending {
        return;
      }
      var pr := pending[id];
      ResponseDelivered(s, id, AsBody(pr.rpcMethod, incoming));
      pending := pending - {id};
      pr.Send(Answer(id, AsBody(pr.rpcMethod, incoming)));
    }

    /** Part-way through failing the table of `s`: those no longer in it have
        their failure, all other channels are as they were. */
    ghost predicate Failing(s: State, err: string)
      reads this, everyCall.Values
    {
      && pending.Keys <= s.pending && everyCall.Keys == s.calls.Keys
      && (forall id :: id in pending ==> id in everyCall && pending[id] == everyCall[id])
      && (forall i, j :: i in everyCall && j in everyCall && i != j ==> everyCall[i] != everyCall[j])
      && (forall id :: id in everyCall ==>
            everyCall[id].ch == if id in s.pending - pending.Keys then Some(Failure(err)) else s.calls[id].slot)
    }

    method FailOne(err: string, ghost s: State)
      requires RoomForAll(s) && Failing(s, err) && pending.Keys != {}
      modifies this`pending, everyCall.Values
      ensures Failing(s, err) && pending.Keys < old(pending.Keys)
    {
      var id :| id in pending;
      pending[id].Send(Failure(err));
      pending := pending - {id};
    }

    /** Sends the failure to everyone in the table, under the lock. */
    method FailAll(err: string, ghost s: State)
      requires RoomForAll(s) && Shows(s)
      modifies this`pending, everyCall.Values
      ensures Shows(FailPending(s, err))
    {
      Halfway(s, err);
      while pending.Keys != {}
        invariant Failing(s, err)
        decreases pending.Keys
      {
        hide *;
        FailOne(err, s);
      }
      Failed(s, err);
    }

    lemma Halfway(s: State, err: string)
      requires Shows(s)
      ensures Failing(s, err)
    {
    }

    lemma Failed(s: State, err: string)
      requires Failing(s, err) && pending == map[]
      requires nextID == s.next && processErr == s.exitErr && processDone == s.done
      ensures Shows(FailPending(s, err))
    {
    }

    method CloseAllPending(err: string, ghost s: State)
      requires Inv(s) && Shows(s)
      modifies this`pending, everyCall.Values
      ensures Shows(Next(s, Step.CloseAllPending(err)))
    {
      SendsNeverBlock(s);
      FailAll(err, s);
    }

    /** Keeps the first exit's error and closes the done channel at most once. */
    method MarkProcessExited(reason: Option<string>, ghost s: State)
      requires Inv(s) && Shows(s)
      modifies this`pending, this`processErr, this`processDone, everyCall.Values
      ensures Shows(Next(s, ProcessExit(reason)))
      ensures processErr == if old(processErr).Some? then old(processErr)
                            else if reason.Some? then reason else Some("codex process exited")
      ensures old(processErr).None? && !old(processDone).NotMade? ==> processDone == Closed
      ensures pending == map[] && forall id :: id in old(pending) ==>
                old(pending)[id].ch == Some(Failure(if reason.Some? then reason.value else "codex process exited"))
    {
      hide CallOk, Inv;
      SendsNeverBlock(s);
      var err := if reason.Some? then reason.value else EXITED;
      ghost var t := s;
      if processErr.None? {
        processErr := Some(err);
        t := t.(exitErr := Some(err));
        if !processDone.NotMade? {
          processDone := Closed;
          t := t.(done := Closed, closes := t.closes + 1);
        }
      }
      FailAll(err, t);
    }
  }
}
