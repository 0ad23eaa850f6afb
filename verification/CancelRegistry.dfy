/** The process-local registry of running streams and their cancel functions. */
module CancelRegistry {
  type Id = string

  datatype Outcome = Fired | AlreadyRequested | Unknown

  /** The three maps under the lock, the cancel functions collected but not yet
      called, and histories. A function is named by the number of the
      registration that brought it. */
  datatype Registry = Registry(
    cancels: map<Id, nat>, requested: set<Id>, shutdownIds: set<Id>,
    pending: multiset<nat>, registered: nat,
    // histories
    ever: set<Id>, called: multiset<nat>, toldFired: multiset<Id>, userFirst: set<Id>)

  const Empty := Registry(map[], {}, {}, multiset{}, 0, {}, multiset{}, multiset{}, {})

  datatype Step = Register(id: Id) | Unregister(id: Id) | Cancel(id: Id) | CancelAll | Call(fn: nat)

  function CancelOutcome(r: Registry, id: Id): Outcome {
    if id !in r.cancels then Unknown else if id in r.requested then AlreadyRequested else Outcome.Fired
  }

  /** The functions of everything not yet requested. */
  function FreshFunctions(r: Registry): set<nat> {
    set id | id in r.cancels && id !in r.requested :: r.cancels[id]
  }

  function Next(r: Registry, a: Step): Registry {
    match a
    case Register(id) =>
      r.(cancels := r.cancels[id := r.registered], registered := r.registered + 1,
         requested := r.requested - {id}, shutdownIds := r.shutdownIds - {id}, ever := r.ever + {id})
    case Unregister(id) =>
      r.(cancels := r.cancels - {id}, requested := r.requested - {id}, shutdownIds := r.shutdownIds - {id})
    case Cancel(id) =>
      if CancelOutcome(r, id) != Outcome.Fired then r
      else r.(requested := r.requested + {id}, pending := r.pending + multiset{r.cancels[id]},
              toldFired := r.toldFired + multiset{id}, userFirst := r.userFirst + {id})
    case CancelAll =>
      var rest := r.cancels.Keys - r.requested;
      r.(requested := r.requested + rest, shutdownIds := r.shutdownIds + rest,
         pending := r.pending + multiset(FreshFunctions(r)))
    case Call(fn) =>
      if fn in r.pending then r.(pending := r.pending - multiset{fn}, called := r.called + multiset{fn}) else r
  }

  function Exec(r: Registry, run: seq<Step>): Registry
    decreases |run|
  {
    if run == [] then r else Exec(Next(r, run[0]), run[1..])
  }

  // ---------- each function at most once, in every run ----------

  /** How often the registry has set out to call a function. */
  function Calls(r: Registry, fn: nat): nat { r.pending[fn] + r.called[fn] }

  ghost predicate Inv(r: Registry) {
    && r.shutdownIds <= r.requested <= r.cancels.Keys
    && (forall id :: id in r.cancels ==> r.cancels[id] < r.registered)
    && (forall i, j :: i in r.cancels && j in r.cancels && i != j ==> r.cancels[i] != r.cancels[j])
    && (forall fn :: FnOk(r, fn))
  }

  /** A function is called at most once, and not at all while it waits unrequested. */
  ghost predicate FnOk(r: Registry, fn: nat) {
    && Calls(r, fn) <= 1
    && (fn >= r.registered || fn in FreshFunctions(r) ==> Calls(r, fn) == 0)
  }

  /** Whether this step is the one that decides to call the function. */
  predicate SetsOut(r: Registry, a: Step, fn: nat) {
    || (a.Cancel? && CancelOutcome(r, a.id) == Outcome.Fired && fn == r.cancels[a.id])
    || (a.CancelAll? && fn in FreshFunctions(r))
  }

  lemma StepCalls(r: Registry, a: Step, fn: nat)
    ensures Calls(Next(r, a), fn) == Calls(r, fn) + (if SetsOut(r, a, fn) then 1 else 0)
  {
    hide FreshFunctions;
    if a.Cancel? && CancelOutcome(r, a.id) == Outcome.Fired {
      assert multiset{r.cancels[a.id]}[fn] == if fn == r.cancels[a.id] then 1 else 0;
    } else if a.CancelAll? {
      assert multiset(FreshFunctions(r))[fn] == if fn in FreshFunctions(r) then 1 else 0;
    }
  }

  lemma StepFn(r: Registry, a: Step, fn: nat)
    requires Inv(r)
    ensures FnOk(Next(r, a), fn)
  {
    hide Calls;
    StepCalls(r, a, fn);
    assert FnOk(r, fn);
  }

  lemma StepMaps(r: Registry, a: Step)
    requires Inv(r)
    ensures var t := Next(r, a);
            && t.shutdownIds <= t.requested <= t.cancels.Keys
            && (forall id :: id in t.cancels ==> t.cancels[id] < t.registered)
            && (forall i, j :: i in t.cancels && j in t.cancels && i != j ==> t.cancels[i] != t.cancels[j])
  {
    hide FnOk, FreshFunctions;
  }

  lemma StepInv(r: Registry, a: Step)
    requires Inv(r)
    ensures Inv(Next(r, a))
  {
    hide FnOk, Next, FreshFunctions;
    StepMaps(r, a);
    forall fn: nat ensures FnOk(Next(r, a), fn) { StepFn(r, a, fn); }
  }

  /** Over every interleaving, with ids used again at will: shutdown ids are
      requested ids, requested ids are registered ids, and each cancel function
      is called at most once. */
  lemma {:induction false} CalledOnce(r: Registry, run: seq<Step>)
    requires Inv(r)
    ensures Inv(Exec(r, run))
    ensures forall fn :: Exec(r, run).called[fn] <= 1
    decreases |run|
  {
    hide FnOk, Next;
    if run == [] {
      forall fn: nat ensures r.called[fn] <= 1 { CallsBound(r, fn); }
    } else {
      StepInv(r, run[0]);
      CalledOnce(Next(r, run[0]), run[1..]);
    }
  }

  lemma CallsBound(r: Registry, fn: nat)
    requires Inv(r)
    ensures r.called[fn] <= 1
  {
    assert FnOk(r, fn);
  }

  // ---------- what the registry knows of an id ----------

  /** Where an id stands, from its own history alone. */
  datatype Standing = Absent | Running | ByUser | ByShutdown

  function After(st: Standing, a: Step, id: Id): Standing {
    if a == Register(id) then Running
    else if a == Unregister(id) then Absent
    else if a == Cancel(id) && st.Running? then ByUser
    else if a.CancelAll? && st.Running? then ByShutdown
    else st
  }

  function StandingOf(st: Standing, run: seq<Step>, id: Id): Standing
    decreases |run|
  {
    if run == [] then st else StandingOf(After(st, run[0], id), run[1..], id)
  }

  /** What the registry holds and answers of an id that stands so: its function
      has been called or is about to be exactly if somebody asked for it. */
  ghost predicate Stands(r: Registry, id: Id, st: Standing) {
    && (id in r.cancels <==> !st.Absent?)
    && (id in r.shutdownIds <==> st.ByShutdown?)
    && CancelOutcome(r, id) == (if st.Absent? then Unknown else if st.Running? then Fired else AlreadyRequested)
    && (id in r.cancels ==> Calls(r, r.cancels[id]) == if st.Running? then 0 else 1)
  }

  lemma StandsMaps(r: Registry, a: Step, id: Id, st: Standing)
    requires r.shutdownIds <= r.requested <= r.cancels.Keys && Stands(r, id, st)
    ensures var t, st' := Next(r, a), After(st, a, id);
            && (id in t.cancels <==> !st'.Absent?)
            && (id in t.shutdownIds <==> st'.ByShutdown?)
            && CancelOutcome(t, id) ==
               (if st'.Absent? then Unknown else if st'.Running? then Fired else AlreadyRequested)
  {
    hide Calls, FreshFunctions;
  }

  /** A step sets out to call the id's function exactly if it cancels the id. */
  lemma SetsOutFor(r: Registry, a: Step, id: Id)
    requires Inv(r) && id in r.cancels
    ensures SetsOut(r, a, r.cancels[id]) <==> CancelOutcome(r, id) == Outcome.Fired && (a == Cancel(id) || a.CancelAll?)
  {
    hide FnOk;
  }

  lemma StandsCalls(r: Registry, a: Step, id: Id, st: Standing)
    requires Inv(r) && Stands(r, id, st)
    ensures var t := Next(r, a);
            id in t.cancels ==> Calls(t, t.cancels[id]) == if After(st, a, id).Running? then 0 else 1
  {
    hide Calls, FreshFunctions, SetsOut, Inv;
    if a == Register(id) {
      NewIsUncalled(r);
      StepCalls(r, a, r.registered);
    } else if id in r.cancels {
      StepCalls(r, a, r.cancels[id]);
      SetsOutFor(r, a, id);
    }
  }

  lemma NewIsUncalled(r: Registry)
    requires Inv(r)
    ensures Calls(r, r.registered) == 0 && forall id :: !SetsOut(r, Register(id), r.registered)
  {
    assert FnOk(r, r.registered);
  }

  lemma StandsStep(r: Registry, a: Step, id: Id, st: Standing)
    requires Inv(r) && Stands(r, id, st)
    ensures Stands(Next(r, a), id, After(st, a, id))
  {
    hide Next, After, Calls, CancelOutcome, FnOk;
    StandsMaps(r, a, id, st);
    StandsCalls(r, a, id, st);
  }

  /** After every run the registry knows of each id exactly what the id's own
      history says: registered and not asked for, cancelled by a user, or cancelled
      by the shutdown, whichever was first since it was registered last. */
  lemma {:induction false} RegistryIsHistory(r: Registry, run: seq<Step>, id: Id, st: Standing)
    requires Inv(r) && Stands(r, id, st)
    ensures Stands(Exec(r, run), id, StandingOf(st, run, id))
    decreases |run|
  {
    hide Inv, Stands, Next, After;
    if run != [] {
      StepInv(r, run[0]);
      StandsStep(r, run[0], id, st);
      RegistryIsHistory(Next(r, run[0]), run[1..], id, After(st, run[0], id));
    }
  }

  // ---------- what is true of an id that is used once ----------

  /** Session ids are fresh: none is registered twice. */
  predicate FreshIds(r: Registry, run: seq<Step>)
    decreases |run|
  {
    run == [] || ((run[0].Register? ==> run[0].id !in r.ever) && FreshIds(Next(r, run[0]), run[1..]))
  }

  ghost predicate IdOk(r: Registry, id: Id) {
    && (id in r.shutdownIds ==> id !in r.userFirst && r.toldFired[id] == 0)
    && (id in r.cancels || id in r.userFirst ==> id in r.ever)
    && (id in r.userFirst && id in r.cancels ==> id in r.requested)
    && r.toldFired[id] <= 1
    && (r.toldFired[id] == 1 ==> id in r.ever && (id in r.cancels ==> id in r.requested))
  }

  ghost predicate IdInv(r: Registry) { Inv(r) && forall id :: IdOk(r, id) }

  lemma StepId(r: Registry, a: Step, id: Id)
    requires IdOk(r, id) && r.shutdownIds <= r.requested && (a.Register? ==> a.id !in r.ever)
    ensures IdOk(Next(r, a), id)
  {
    hide FreshFunctions;
    if a.Cancel? {
      assert multiset{a.id}[id] == if id == a.id then 1 else 0;
    }
  }

  lemma StepIds(r: Registry, a: Step)
    requires IdInv(r) && (a.Register? ==> a.id !in r.ever)
    ensures IdInv(Next(r, a))
  {
    hide IdOk, Next, FnOk;
    StepInv(r, a);
    forall id: Id ensures IdOk(Next(r, a), id) { StepId(r, a, id); }
  }

  /** With fresh ids besides: at most one caller is told that it fired a stream's
      function, and a stream whose user cancelled first is never marked as a shutdown. */
  lemma {:induction false} RegistrySafe(r: Registry, run: seq<Step>)
    requires IdInv(r) && FreshIds(r, run)
    ensures IdInv(Exec(r, run)) && Safe(Exec(r, run))
    decreases |run|
  {
    hide IdOk, FnOk, Next, Safe;
    SafeFromInv(r);
    if run != [] {
      StepIds(r, run[0]);
      RegistrySafe(Next(r, run[0]), run[1..]);
    }
  }

  ghost predicate Safe(r: Registry) {
    && r.shutdownIds <= r.requested <= r.cancels.Keys <= r.ever
    && r.userFirst !! r.shutdownIds
    && (forall fn :: r.called[fn] <= 1)
    && (forall id :: r.toldFired[id] <= 1)
  }

  lemma SafeFromInv(r: Registry)
    requires IdInv(r)
    ensures Safe(r)
  {
    hide FnOk;
    forall fn: nat ensures r.called[fn] <= 1 { CallsBound(r, fn); }
    forall id: Id
      ensures id in r.shutdownIds ==> id !in r.userFirst
      ensures id in r.cancels ==> id in r.ever
      ensures r.toldFired[id] <= 1
    {
      assert IdOk(r, id);
    }
  }

  /** Both from the empty registry on: whatever happens no function is called
      twice, and with fresh ids the claims about ids hold. */
  lemma EveryRun(run: seq<Step>)
    ensures forall id :: Stands(Exec(Empty, run), id, StandingOf(Absent, run, id))
    ensures forall fn :: Exec(Empty, run).called[fn] <= 1
    ensures FreshIds(Empty, run) ==> Safe(Exec(Empty, run))
  {
    hide Exec, FreshIds, Safe, Stands;
    forall id ensures Stands(Exec(Empty, run), id, StandingOf(Absent, run, id)) {
      AbsentFirst(id);
      RegistryIsHistory(Empty, run, id, Absent);
    }
    CalledOnce(Empty, run);
    if FreshIds(Empty, run) { RegistrySafe(Empty, run); }
  }

  lemma AbsentFirst(id: Id)
    ensures Stands(Empty, id, Absent)
  {
  }

  function Registrations(run: seq<Step>, id: Id): nat {
    if run == [] then 0 else (if run[0] == Register(id) then 1 else 0) + Registrations(run[1..], id)
  }

  /** A caller can still be the one that fires the id's function. */
  predicate Firable(r: Registry, id: Id) { id in r.cancels && id !in r.requested }

  lemma StepFires(r: Registry, a: Step, id: Id)
    ensures Next(r, a).toldFired[id] + (if Firable(Next(r, a), id) then 1 else 0)
         <= r.toldFired[id] + (if Firable(r, id) then 1 else 0) + (if a == Register(id) then 1 else 0)
  {
    hide FreshFunctions;
    if a.Cancel? {
      assert multiset{a.id}[id] == if id == a.id then 1 else 0;
    }
  }

  /** Without any rule on ids: each registration of an id lets at most one caller
      be told that it fired. */
  lemma {:induction false} FiredPerRegistration(r: Registry, run: seq<Step>, id: Id)
    ensures Exec(r, run).toldFired[id] <= r.toldFired[id] + (if Firable(r, id) then 1 else 0) + Registrations(run, id)
    decreases |run|
  {
    hide Next, Firable;
    if run != [] {
      StepFires(r, run[0], id);
      FiredPerRegistration(Next(r, run[0]), run[1..], id);
    }
  }

  /** Without the fresh-id rule two callers can be told that they fired one id's
      function; they have then fired two functions, each once. */
  lemma TwoToldFired(id: Id)
    ensures var r := Exec(Empty, [Register(id), Cancel(id), Register(id), Cancel(id)]);
            r.toldFired[id] == 2 && r.pending == multiset{0, 1}
  {
    hide Exec;
    ExecFour(Empty, Register(id), Cancel(id), Register(id), Cancel(id));
    var r2 := Next(Next(Empty, Register(id)), Cancel(id));
    assert r2.cancels == map[id := 0] && r2.pending == multiset{0};
    var r3 := Next(r2, Register(id));
    assert r3.cancels[id] == 1 && r3.requested == {};
  }

  lemma ExecFour(r: Registry, a: Step, b: Step, c: Step, d: Step)
    ensures Exec(r, [a, b, c, d]) == Next(Next(Next(Next(r, a), b), c), d)
  {
    hide Next;
    var r2 := Next(Next(r, a), b);
    assert [a, b, c, d][1..] == [b, c, d] && [b, c, d][1..] == [c, d] && [c, d][1..] == [d] && [d][1..] == [];
    assert Exec(r2, [c, d]) == Next(Next(r2, c), d) by {
      assert Exec(Next(r2, c), [d]) == Next(Next(r2, c), d);
    }
  }

  // ---------- the code ----------

  /** `order` lists the set `s`, each member once. */
  ghost predicate Lists(order: seq<Id>, s: set<Id>) {
    |order| == |s| && (forall id :: id in order <==> id in s)
  }

  /** The functions registered for these ids, in the same order. */
  ghost predicate FunctionsOf(pending: seq<nat>, order: seq<Id>, cancels: map<Id, nat>) {
    |pending| == |order| && forall i :: 0 <= i < |order| ==> order[i] in cancels && pending[i] == cancels[order[i]]
  }

  lemma FunctionsNone(cancels: map<Id, nat>)
    ensures FunctionsOf([], [], cancels)
  {
  }

  lemma FunctionsOneMore(pending: seq<nat>, order: seq<Id>, cancels: map<Id, nat>, id: Id)
    requires FunctionsOf(pending, order, cancels) && id in cancels
    ensures FunctionsOf(pending + [cancels[id]], order + [id], cancels)
  {
  }

  /** Walking over `keys` in any order: `left` is still to come, `taken` was new. */
  ghost predicate Walked(keys: set<Id>, left: set<Id>, taken: set<Id>, requested: set<Id>) {
    left <= keys && forall id :: id in taken <==> id in keys && id !in left && id !in requested
  }

  lemma WalkStarts(keys: set<Id>, requested: set<Id>)
    ensures Walked(keys, keys, {}, requested)
  {
  }

  lemma WalkOn(keys: set<Id>, left: set<Id>, taken: set<Id>, requested: set<Id>, id: Id)
    requires Walked(keys, left, taken, requested) && id in left
    ensures id in keys && id !in taken
    ensures id in requested ==> Walked(keys, left - {id}, taken, requested)
    ensures id !in requested ==> Walked(keys, left - {id}, taken + {id}, requested)
  {
  }

  lemma WalkEnds(keys: set<Id>, taken: set<Id>, requested: set<Id>)
    requires Walked(keys, {}, taken, requested)
    ensures taken == keys - requested
  {
  }

  lemma ListsNone()
    ensures Lists([], {})
  {
  }

  lemma ListsOneMore(order: seq<Id>, s: set<Id>, id: Id)
    requires Lists(order, s) && id !in s
    ensures Lists(order + [id], s + {id})
  {
  }

  class Locked {
    var cancels: map<Id, nat>
    var requested: set<Id>
    var shutdownIds: set<Id>
    ghost var given: seq<nat>

    /** `given` lists the functions in the order in which they were registered. */
    ghost predicate Shows(r: Registry)
      reads this
    {
      && cancels.Keys == r.cancels.Keys && requested == r.requested && shutdownIds == r.shutdownIds
      && |given| == r.registered
      && forall id :: id in cancels ==> r.cancels[id] < |given| && cancels[id] == given[r.cancels[id]]
    }

    constructor ()
      ensures Shows(Empty)
    {
      cancels, requested, shutdownIds, given := map[], {}, {}, [];
    }

    method Register(id: Id, cancel: nat, ghost r: Registry)
      requires Shows(r)
      modifies this
      ensures Shows(Next(r, Step.Register(id))) && cancels == old(cancels)[id := cancel]
      ensures given == old(given) + [cancel]
    {
      cancels := cancels[id := cancel];
      given := given + [cancel];
      requested := requested - {id};
      shutdownIds := shutdownIds - {id};
    }

    method Unregister(id: Id, ghost r: Registry)
      requires Shows(r)
      modifies this
      ensures Shows(Next(r, Step.Unregister(id))) && cancels == old(cancels) - {id} && given == old(given)
    {
      cancels := cancels - {id};
      requested := requested - {id};
      shutdownIds := shutdownIds - {id};
    }

    method IsShutdown(id: Id) returns (b: bool)
      ensures b == (id in shutdownIds)
    {
      return id in shutdownIds;
    }

    /** The cancel function to call after the unlock, if this caller fires it. */
    method Cancel(id: Id, ghost r: Registry) returns (outcome: Outcome, cancel: nat)
      requires Shows(r)
      modifies this
      ensures Shows(Next(r, Step.Cancel(id))) && cancels == old(cancels) && given == old(given)
      ensures outcome == CancelOutcome(r, id)
      ensures outcome == Fired ==> cancel == cancels[id] == given[r.cancels[id]]
    {
      if id !in cancels {
        return Unknown, 0;
      }
      if id in requested {
        return AlreadyRequested, 0;
      }
      requested := requested + {id};
      return Fired, cancels[id];
    }

    /** Marks everything not yet requested, in any order, and collects what to call. */
    method CancelAll(ghost r: Registry) returns (pending: seq<nat>, ghost order: seq<Id>)
      requires Shows(r)
      modifies this
      ensures Shows(Next(r, Step.CancelAll)) && cancels == old(cancels) && given == old(given)
      ensures Lists(order, r.cancels.Keys - r.requested)
      ensures FunctionsOf(pending, order, cancels)
    {
      hide Lists;
      pending, order := MarkAll();
    }

    method MarkAll() returns (pending: seq<nat>, ghost order: seq<Id>)
      modifies this`requested, this`shutdownIds
      ensures requested == old(requested) + (cancels.Keys - old(requested))
      ensures shutdownIds == old(shutdownIds) + (cancels.Keys - old(requested))
      ensures Lists(order, cancels.Keys - old(requested))
      ensures FunctionsOf(pending, order, cancels)
    {
      hide *;
      ListsNone();
      FunctionsNone(cancels);
      WalkStarts(cancels.Keys, requested);
      pending, order := [], [];
      var left := cancels.Keys;
      ghost var taken: set<Id> := {};
      while left != {}
        invariant Walked(cancels.Keys, left, taken, old(requested))
        invariant requested == old(requested) + taken && shutdownIds == old(shutdownIds) + taken
        invariant Lists(order, taken)
        invariant FunctionsOf(pending, order, cancels)
        decreases left
      {
        var id :| id in left;
        WalkOn(cancels.Keys, left, taken, old(requested), id);
        left := left - {id};
        if id !in requested {
          ListsOneMore(order, taken, id);
          FunctionsOneMore(pending, order, cancels, id);
          requested := requested + {id};
          shutdownIds := shutdownIds + {id};
          pending := pending + [cancels[id]];
          order := order + [id];
          taken := taken + {id};
        }
      }
      WalkEnds(cancels.Keys, taken, old(requested));
    }
  }

  /** What the cancel endpoint finds in the session table and what it answers. */
  datatype Lookup = Missing | Broken | Row(terminal: bool)
  datatype Reply = NotFound | Internal | Accepted | AlreadyTerminated

  function CancelReply(row: Lookup, r: Registry, id: Id): (Reply, Registry) {
    match row
    case Missing => (NotFound, r)
    case Broken => (Internal, r)
    case Row(terminal) =>
      if terminal then (AlreadyTerminated, r)
      else (if CancelOutcome(r, id) == Outcome.Fired then Accepted else AlreadyTerminated, Next(r, Cancel(id)))
  }

  /** After an accepted cancel request, and whatever happens to the registry
      meanwhile, a later request for the same stream is never accepted again;
      while the row still says running it is told `already terminated`. */
  lemma {:induction false} AcceptedOnce(r: Registry, id: Id, first: Lookup, run: seq<Step>, second: Lookup)
    requires IdInv(r) && CancelReply(first, r, id).0 == Accepted
    requires FreshIds(CancelReply(first, r, id).1, run)
    ensures CancelReply(second, Exec(CancelReply(first, r, id).1, run), id).0
         == match second { case Missing => NotFound case Broken => Internal case Row(_) => AlreadyTerminated }
  {
    StepIds(r, Cancel(id));
    assert IdOk(r, id);
    RequestedStays(Next(r, Cancel(id)), id, run);
  }

  lemma {:induction false} RequestedStays(r: Registry, id: Id, run: seq<Step>)
    requires IdInv(r) && FreshIds(r, run) && id in r.ever && (id in r.cancels ==> id in r.requested)
    ensures CancelOutcome(Exec(r, run), id) != Outcome.Fired
    decreases |run|
  {
    if run != [] {
      hide IdOk, FnOk;
      StepIds(r, run[0]);
      RequestedStays(Next(r, run[0]), id, run[1..]);
    }
  }
}
