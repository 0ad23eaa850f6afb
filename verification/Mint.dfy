/** The first-run mint window over whole histories: concurrent requests, crashes,
    restarts, failing file removals, and token inserts from outside. */
module Mint {
  import opened Wrappers

  const MAX_FAILURES := 5

  /** How a row of the token table came to be. */
  datatype Via = FirstRunMint | Other

  datatype Window = Window(failures: nat, closed: bool)

  /** Where the request that holds the window's lock stands. */
  datatype Stage = AtRecheck | AtStat | AtCommit | AtRemove

  /** The token table and the nonce file outlive the process; the window, the
      requests past their hash, and the lock do not. */
  datatype State = State(
    tokens: seq<Via>, nonce: bool,
    up: bool, window: Option<Window>, hashed: map<nat, bool>, lock: Option<Stage>)

  datatype Step =
    | Outside                                  // another command inserts a token
    | NonceGone                                // somebody deletes the nonce file
    | Crash
    | Start(isLocal: bool, dbFails: bool, statFails: bool, parses: bool, removeFails: bool)
    | Malformed(removeFails: bool)             // a counted failure before the hash
    | Hash(request: nat, matches: bool)        // outside the lock
    | Acquire(request: nat, removeFails: bool)
    | Recheck(dbFails: bool)
    | Stat(fails: bool)
    | Commit(dbFails: bool)
    | Remove(fails: bool)

  predicate Open(s: State) { s.window.Some? && !s.window.value.closed }

  /** recordCountedFailure and the mismatch branch, under the lock. */
  function CountFailure(s: State, removeFails: bool): (t: State)
    requires s.window.Some?
    ensures t == s.(window := t.window, nonce := t.nonce)
  {
    var w := s.window.value;
    if w.closed then s
    else if w.failures + 1 >= MAX_FAILURES
    then s.(window := Some(Window(w.failures + 1, true)), nonce := s.nonce && removeFails)
    else s.(window := Some(Window(w.failures + 1, false)))
  }

  /** The startup decision; the process does not come up if the table cannot be
      read or the file not looked at. */
  function Probe(s: State, isLocal: bool, dbFails: bool, statFails: bool, parses: bool, removeFails: bool): State {
    if !isLocal then s.(up := true)
    else if dbFails then s
    else if s.tokens != [] then s.(up := true, nonce := s.nonce && (statFails || removeFails))
    else if statFails then s
    else if s.nonce && parses then s.(up := true, window := Some(Window(0, false)))
    else s.(up := true)
  }

  function Next(s: State, a: Step): State {
    match a
    case Outside => s.(tokens := s.tokens + [Other])
    case NonceGone => s.(nonce := false)
    case Crash => s.(up := false, window := None, hashed := map[], lock := None)
    case Start(isLocal, dbFails, statFails, parses, removeFails) =>
      if s.up then s else Probe(s, isLocal, dbFails, statFails, parses, removeFails)
    case Malformed(removeFails) =>
      if s.window.Some? && s.lock.None? then CountFailure(s, removeFails) else s
    case Hash(request, matches) =>
      if s.window.Some? && request !in s.hashed then s.(hashed := s.hashed[request := matches]) else s
    case Acquire(request, removeFails) =>
      if s.window.None? || s.lock.Some? || request !in s.hashed then s
      else
        var t := s.(hashed := s.hashed - {request});
        if t.window.value.closed then t
        else if !s.hashed[request] then CountFailure(t, removeFails)
        else t.(lock := Some(AtRecheck))
    case Recheck(dbFails) =>
      if s.lock != Some(AtRecheck) then s
      else s.(lock := if dbFails || s.tokens != [] then None else Some(AtStat))
    case Stat(fails) =>
      if s.lock != Some(AtStat) then s
      else s.(lock := if s.nonce && !fails then Some(AtCommit) else None)
    case Commit(dbFails) =>
      if s.lock != Some(AtCommit) then s
      else if dbFails || s.tokens != [] then s.(lock := None)
      else s.(tokens := [FirstRunMint], lock := Some(AtRemove))
    case Remove(fails) =>
      if s.lock != Some(AtRemove) || s.window.None? then s
      else s.(nonce := s.nonce && fails, window := Some(s.window.value.(closed := true)), lock := None)
  }

  function Exec(s: State, run: seq<Step>): State
    decreases |run|
  {
    if run == [] then s else Exec(Next(s, run[0]), run[1..])
  }

  /** Down, with any file and any tokens that were not minted here. */
  predicate Initial(s: State) {
    !s.up && s.window.None? && s.hashed == map[] && s.lock.None? && FirstRunMint !in s.tokens
  }

  // ---------- safety ----------

  function Mints(tokens: seq<Via>): nat {
    if tokens == [] then 0 else (if tokens[0] == FirstRunMint then 1 else 0) + Mints(tokens[1..])
  }

  ghost predicate Inv(s: State) {
    && (forall k :: 0 < k < |s.tokens| ==> s.tokens[k] == Other)
    && (s.window.Some? ==> s.up && s.window.value.failures <= MAX_FAILURES)
    && (s.window.Some? && s.window.value.failures == MAX_FAILURES ==> s.window.value.closed)
    && (s.lock.Some? ==> Open(s))
    && (s.hashed != map[] ==> s.window.Some?)
    && (s.lock == Some(AtRemove) ==> s.tokens != [])
    && (s.tokens != [] && s.tokens[0] == FirstRunMint ==> !Open(s) || s.lock == Some(AtRemove))
  }

  lemma StepInv(s: State, a: Step)
    requires Inv(s)
    ensures Inv(Next(s, a))
  {
  }

  lemma {:induction false} TailMints(tokens: seq<Via>, k: nat)
    requires k <= |tokens| && forall i :: k <= i < |tokens| ==> tokens[i] == Other
    ensures Mints(tokens[k..]) == 0
    decreases |tokens| - k
  {
    if k < |tokens| {
      TailMints(tokens, k + 1);
      assert tokens[k..][1..] == tokens[k + 1..];
    }
  }

  lemma MintsAtMostOne(s: State)
    requires Inv(s)
    ensures Mints(s.tokens) <= 1
    ensures FirstRunMint in s.tokens <==> s.tokens != [] && s.tokens[0] == FirstRunMint
  {
    if s.tokens != [] {
      TailMints(s.tokens, 1);
    }
  }

  /** Whatever the history: at most one token is ever minted here and it is the
      table's first row, so it went into an empty table; within a process no more
      than five failures are counted, the fifth closes the window; and the lock's
      holder, who alone commits, holds it only while the window is open. */
  lemma {:induction false} MintSafe(s: State, run: seq<Step>)
    requires Inv(s)
    ensures Inv(Exec(s, run)) && Mints(Exec(s, run).tokens) <= 1
    ensures var w := Exec(s, run).window;
            w.Some? ==> w.value.failures <= 5 && (w.value.failures == 5 ==> w.value.closed)
    decreases |run|
  {
    MintsAtMostOne(s);
    if run != [] {
      StepInv(s, run[0]);
      MintSafe(Next(s, run[0]), run[1..]);
    }
  }

  /** Bad codes at an open window: it stays open until the fifth failure is
      counted, and later ones count nothing. */
  lemma {:induction false} FifthCloses(s: State, bad: seq<bool>)
    requires Inv(s) && Open(s) && s.lock.None?
    ensures var w := Exec(s, seq(|bad|, i requires 0 <= i < |bad| => Malformed(bad[i]))).window;
            var n := s.window.value.failures + |bad|;
            && w.Some? && w.value.failures == (if n < 5 then n else 5)
            && (w.value.closed <==> w.value.failures == 5)
    decreases |bad|
  {
    hide Inv;
    var run := seq(|bad|, i requires 0 <= i < |bad| => Malformed(bad[i]));
    FailuresBelow(s);
    if bad != [] {
      var rest := seq(|bad| - 1, i requires 0 <= i < |bad| - 1 => Malformed(bad[1..][i]));
      assert run[0] == Malformed(bad[0]) && run[1..] == rest;
      var t := Next(s, Malformed(bad[0]));
      StepInv(s, Malformed(bad[0]));
      if Open(t) {
        FifthCloses(t, bad[1..]);
      } else {
        forall a | a in rest ensures !a.Crash? { var i :| 0 <= i < |rest| && rest[i] == a; }
        ClosedIsFinal(t, rest);
      }
    }
  }

  lemma FailuresBelow(s: State)
    requires Inv(s) && Open(s)
    ensures s.window.value.failures < 5
  {
  }

  /** From the first start on, over every history: at most one token is minted,
      it is the first row, and nothing is minted if there already is a token. */
  lemma MintHistory(s: State, run: seq<Step>)
    requires Initial(s)
    ensures Inv(Exec(s, run))
    ensures Mints(Exec(s, run).tokens) <= if s.tokens == [] then 1 else 0
  {
    hide Exec, Next;
    assert forall k :: 0 <= k < |s.tokens| ==> s.tokens[k] in s.tokens;
    MintSafe(s, run);
    MintsAtMostOne(s);
    if s.tokens != [] {
      NeverOpensAgain(s, run);
      TailMints(s.tokens, 0);
      assert s.tokens[0..] == s.tokens;
    }
  }

  /** Closed for this process: neither a commit nor a failure count any more. */
  lemma {:induction false} ClosedIsFinal(s: State, run: seq<Step>)
    requires Inv(s) && s.window.Some? && s.window.value.closed
    requires forall a :: a in run ==> !a.Crash?
    ensures Exec(s, run).window == s.window
    ensures Mints(Exec(s, run).tokens) == Mints(s.tokens)
    decreases |run|
  {
    if run != [] {
      StepInv(s, run[0]);
      assert run[0] in run;
      OtherMintsNothing(s.tokens);
      ClosedIsFinal(Next(s, run[0]), run[1..]);
    }
  }

  lemma {:induction false} OtherMintsNothing(tokens: seq<Via>)
    ensures Mints(tokens + [Other]) == Mints(tokens)
  {
    if tokens != [] {
      OtherMintsNothing(tokens[1..]);
      assert (tokens + [Other])[1..] == tokens[1..] + [Other];
    } else {
      assert ([] + [Other])[1..] == [];
    }
  }

  /** Shut out: no window is open, and none can open. */
  predicate Shut(s: State) { !Open(s) && (s.tokens != [] || !s.nonce) }

  lemma StepShut(s: State, a: Step)
    requires Inv(s) && Shut(s)
    ensures Shut(Next(s, a))
    ensures Next(s, a).tokens == s.tokens || Next(s, a).tokens == s.tokens + [Other]
  {
  }

  /** Once no window is open and there is a token or no nonce file, none ever
      opens again and nothing is minted: not by crashes, restarts or failed
      removals. */
  lemma {:induction false} NeverOpensAgain(s: State, run: seq<Step>)
    requires Inv(s) && Shut(s)
    ensures Shut(Exec(s, run)) && Mints(Exec(s, run).tokens) == Mints(s.tokens)
    decreases |run|
  {
    hide Next, Shut, Mints, Inv;
    if run != [] {
      StepInv(s, run[0]);
      StepShut(s, run[0]);
      OtherMintsNothing(s.tokens);
      NeverOpensAgain(Next(s, run[0]), run[1..]);
    }
  }

  /** A start opens a window exactly when it may. */
  lemma StartOpens(s: State, isLocal: bool, dbFails: bool, statFails: bool, parses: bool, removeFails: bool)
    requires Inv(s) && !s.up
    ensures Open(Next(s, Start(isLocal, dbFails, statFails, parses, removeFails)))
            <==> isLocal && !dbFails && s.tokens == [] && !statFails && s.nonce && parses
  {
  }

  /** The limit is per process: when the lockout cannot remove the nonce file, the
      next start opens the window again with no failure counted. */
  lemma LockoutCanReopen(s: State)
    requires Inv(s) && Open(s) && s.lock.None? && s.tokens == [] && s.nonce
    requires s.window.value.failures == MAX_FAILURES - 1
    ensures !Open(Next(s, Malformed(true)))
    ensures Next(Next(Next(s, Malformed(true)), Crash), Start(true, false, false, true, false)).window
            == Some(Window(0, false))
  {
  }

  /** After a process has closed its window a later one can open again if and only
      if the table is still empty and the nonce file still there. */
  lemma ReopensExactly(s: State)
    requires Inv(s) && s.window.Some? && s.window.value.closed
    ensures (exists run :: Open(Exec(s, run))) <==> s.tokens == [] && s.nonce
  {
    hide Inv, Exec;
    if s.tokens == [] && s.nonce {
      var a := Start(true, false, false, true, false);
      ExecTwo(s, Crash, a);
      assert Open(Next(Next(s, Crash), a));
      assert Open(Exec(s, [Crash, a]));
    } else {
      forall run ensures !Open(Exec(s, run)) { NeverOpensAgain(s, run); }
    }
  }

  lemma ExecTwo(s: State, a: Step, b: Step)
    ensures Exec(s, [a, b]) == Next(Next(s, a), b)
  {
    hide Next;
    assert [a, b][1..] == [b] && [b][1..] == [];
    assert Exec(Next(s, a), [b]) == Next(Next(s, a), b);
  }

  /** With the file removed, the lockout is for good. */
  lemma LockoutIsFinal(s: State, run: seq<Step>)
    requires Inv(s) && Open(s) && s.lock.None? && s.window.value.failures == MAX_FAILURES - 1
    ensures !Open(Exec(Next(s, Malformed(false)), run))
    ensures Mints(Exec(Next(s, Malformed(false)), run).tokens) == Mints(s.tokens)
  {
    StepInv(s, Malformed(false));
    NeverOpensAgain(Next(s, Malformed(false)), run);
  }

  // ---------- the code ----------

  /** One call of Consume: the code, whether its digest matches, which calls
      fail, and whether another command inserts a token after the recheck. */
  datatype Request = Request(
    code: string, matches: bool,
    recheckFails: bool, insertedMeanwhile: bool, statFails: bool, commitFails: bool, removeFails: bool)

  datatype Outcome = Ok | FormatError | Mismatch | RecheckFailed | Closed | Internal

  predicate ValidCode(s: string) {
    |s| == 43 && s[..4] == "mws_" && forall i :: 4 <= i < 43 ==> 'A' <= s[i] <= 'Z' || '2' <= s[i] <= '7'
  }

  /** The call as steps of the history, with nobody else at the window. */
  function Consumed(s: State, req: Request): State {
    if !ValidCode(req.code) then Next(s, Malformed(req.removeFails))
    else
      var s1 := Next(Next(s, Hash(0, req.matches)), Acquire(0, req.removeFails));
      var s2 := Next(s1, Recheck(req.recheckFails));
      var s3 := if s2.lock == Some(AtStat) && req.insertedMeanwhile then Next(s2, Outside) else s2;
      Next(Next(Next(s3, Stat(req.statFails)), Commit(req.commitFails)), Remove(req.removeFails))
  }

  /** What a call comes to, case by case. */
  lemma ConsumedIs(s: State, req: Request)
    requires s.up && s.window.Some? && s.hashed == map[] && s.lock.None?
    ensures s.window.value.closed ==> Consumed(s, req) == s
    ensures !s.window.value.closed && !(ValidCode(req.code) && req.matches) ==>
              Consumed(s, req) == CountFailure(s, req.removeFails)
    ensures !s.window.value.closed && ValidCode(req.code) && req.matches ==>
              Consumed(s, req) == Matched(s, req)
  {
    hide ValidCode, CountFailure;
    if ValidCode(req.code) {
      HashThenAcquire(s, req);
    } else {
      ClosedCountsNothing(s, req.removeFails);
    }
  }

  lemma ClosedCountsNothing(s: State, removeFails: bool)
    requires s.window.Some?
    ensures s.window.value.closed ==> CountFailure(s, removeFails) == s
  {
  }

  lemma HashThenAcquire(s: State, req: Request)
    requires s.up && s.window.Some? && s.hashed == map[] && s.lock.None?
    ensures Next(Next(s, Hash(0, req.matches)), Acquire(0, req.removeFails))
         == if s.window.value.closed then s
            else if !req.matches then CountFailure(s, req.removeFails)
            else s.(lock := Some(AtRecheck))
  {
    hide CountFailure;
    assert s.(hashed := s.hashed[0 := req.matches] - {0}) == s;
  }

  function Matched(s: State, req: Request): State
    requires s.window.Some?
  {
    var tokens := if req.insertedMeanwhile then s.tokens + [Other] else s.tokens;
    if req.recheckFails || s.tokens != [] then s
    else if !s.nonce || req.statFails || req.commitFails || tokens != [] then s.(tokens := tokens)
    else s.(tokens := [FirstRunMint], nonce := req.removeFails, window := Some(s.window.value.(closed := true)))
  }

  method ValidSetupCodeShape(s: string) returns (ok: bool)
    ensures ok <==> ValidCode(s)
  {
    if |s| != 43 {
      return false;
    }
    if s[..4] != "mws_" {
      return false;
    }
    for i := 4 to |s|
      invariant forall k :: 4 <= k < i ==> 'A' <= s[k] <= 'Z' || '2' <= s[k] <= '7'
    {
      if !('A' <= s[i] <= 'Z') && !('2' <= s[i] <= '7') {
        return false;
      }
    }
    return true;
  }

  class TokenTable {
    var rows: seq<Via>
  }

  class NonceFile {
    var present: bool

    method Delete(fails: bool) returns (ok: bool)
      modifies this
      ensures present == (old(present) && fails)
    {
      if fails || !present {
        return false;
      }
      present := false;
      return true;
    }
  }

  class MintWindow {
    var failureCount: nat
    var closed: bool
    const table: TokenTable
    const file: NonceFile

    constructor (table: TokenTable, file: NonceFile)
      ensures this.table == table && this.file == file && failureCount == 0 && !closed
    {
      this.table, this.file, failureCount, closed := table, file, 0, false;
    }

    /** The window between two requests. */
    ghost function Value(): State
      reads this, table, file
    {
      State(table.rows, file.present, true, Some(Window(failureCount, closed)), map[], None)
    }

    method LockoutLocked(removeFails: bool)
      modifies this`closed, file
      ensures closed && file.present == (old(file.present) && removeFails)
    {
      closed := true;
      var _ := file.Delete(removeFails);
    }

    method CountedFailure(removeFails: bool)
      requires !closed
      modifies this, file
      ensures Value() == CountFailure(old(Value()), removeFails)
      ensures failureCount == old(failureCount) + 1 && table.rows == old(table.rows)
    {
      failureCount := failureCount + 1;
      if failureCount >= MAX_FAILURES {
        LockoutLocked(removeFails);
      }
    }

    /** Consume: the history's steps in a row, and the outcome that goes with
        them: it answers Ok exactly when it minted. */
    method Consume(req: Request) returns (outcome: Outcome)
      modifies this, table, file
      ensures Value() == Consumed(old(Value()), req)
      ensures outcome == Closed <==> old(closed)
      ensures outcome == FormatError <==> !old(closed) && !ValidCode(req.code)
      ensures outcome == Mismatch <==> !old(closed) && ValidCode(req.code) && !req.matches
      ensures outcome == Ok <==> Mints(table.rows) == Mints(old(table.rows)) + 1
      ensures outcome == Ok ==> table.rows == [FirstRunMint] && closed && file.present == req.removeFails
      ensures outcome == Ok <==>
                && !old(closed) && ValidCode(req.code) && req.matches
                && !req.recheckFails && old(table.rows) == [] && !req.insertedMeanwhile
                && old(file.present) && !req.statFails && !req.commitFails
      ensures outcome == RecheckFailed <==>
                && !old(closed) && ValidCode(req.code) && req.matches && !req.recheckFails
                && (old(table.rows) != [] || !old(file.present) || req.statFails)
      ensures outcome == FormatError || outcome == Mismatch <==> failureCount == old(failureCount) + 1
    {
      hide ValidCode, Consumed, Next, CountFailure;
      ConsumedIs(Value(), req);
      OtherMintsNothing(table.rows);
      var ok := ValidSetupCodeShape(req.code);
      if closed {
        return Closed;
      }
      if !ok {
        CountedFailure(req.removeFails);
        return FormatError;
      }
      if !req.matches {
        CountedFailure(req.removeFails);
        return Mismatch;
      }
      if req.recheckFails {
        return Internal;
      }
      if table.rows != [] {
        return RecheckFailed;
      }
      if req.insertedMeanwhile {
        table.rows := table.rows + [Other];
      }
      if req.statFails || !file.present {
        return RecheckFailed;
      }
      if req.commitFails || table.rows != [] {
        return Internal;
      }
      table.rows := table.rows + [FirstRunMint];
      var _ := file.Delete(req.removeFails);
      closed := true;
      return Ok;
    }
  }

  /** The startup decision in the code's own order. */
  datatype Started = Failed | NoWindow | Opened(w: MintWindow)

  method ProbeStartup(
    isLocal: bool, dbFails: bool, statFails: bool, parses: bool, removeFails: bool, table: TokenTable, file: NonceFile)
    returns (r: Started)
    modifies file
    ensures r.Failed? <==> isLocal && (dbFails || (table.rows == [] && statFails))
    ensures r.Opened? <==> isLocal && !dbFails && table.rows == [] && !statFails && old(file.present) && parses
    ensures r.Opened? ==> fresh(r.w) && r.w.table == table && r.w.file == file
    ensures var s := State(table.rows, old(file.present), false, None, map[], None);
            var t := Next(s, Start(isLocal, dbFails, statFails, parses, removeFails));
            t.nonce == file.present && t.up == !r.Failed? &&
            (r.Opened? ==> t.window == Some(Window(r.w.failureCount, r.w.closed)))
  {
    if !isLocal {
      return NoWindow;
    }
    if dbFails {
      return Failed;
    }
    if |table.rows| > 0 {
      if !statFails && file.present {
        var _ := file.Delete(removeFails);
      }
      return NoWindow;
    }
    if statFails {
      return Failed;
    }
    if !file.present {
      return NoWindow;
    }
    if !parses {
      return NoWindow;
    }
    var w := new MintWindow(table, file);
    return Opened(w);
  }
}
