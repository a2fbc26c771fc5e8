/** Every interleaving of calls, workers, cancellations and closers over the executor of
    src/policynim/interfaces/mcp.py. */
module ExecutorRuns {
  import opened Results
  import opened Executor

  // Where a call stands: refused, awaiting its worker, draining it after a cancellation, past it and about
  // to give its slot back, or done.
  datatype Stage = Refused(reason: Admission) | Awaiting | Draining | Leaving | Released

  datatype Call = Call(principal: Option<string>, stage: Stage, workerDone: bool)

  // A closer has signalled and waits for the drain, has seen it, or has closed the shared clients.
  datatype Closer = Waiting | SeenDrained | ClosedClients

  datatype State = State(core: Core, calls: map<CallId, Call>, closers: map<nat, Closer>, clientsClosed: bool)

  datatype Event =
    | Enter(id: CallId, principal: Option<string>)
    | WorkerDone(id: CallId)
    | Cancel(id: CallId)
    | Observe(id: CallId)
    | Leave(id: CallId)
    | BeginClose(closer: nat)
    | SeeDrained(closer: nat)
    | CloseClients(closer: nat)

  const START := State(IDLE, map[], map[], false)

  predicate Holds(call: Call) {
    call.stage.Awaiting? || call.stage.Draining? || call.stage.Leaving?
  }

  predicate Waits(call: Call) {
    call.stage.Awaiting? || call.stage.Draining?
  }

  // ---- The steps ----

  predicate Enabled(s: State, limits: Limits, e: Event) {
    match e
    case Enter(id, _) => id !in s.calls
    case WorkerDone(id) => id in s.calls && Holds(s.calls[id]) && !s.calls[id].workerDone
    // A cancellation may arrive at any time, and again.
    case Cancel(id) => id in s.calls && Holds(s.calls[id])
    // The awaiting task goes on only once its worker is done.
    case Observe(id) => id in s.calls && Waits(s.calls[id]) && s.calls[id].workerDone
    case Leave(id) => id in s.calls && s.calls[id].stage.Leaving?
    case BeginClose(closer) => closer !in s.closers
    case SeeDrained(closer) => closer in s.closers && s.closers[closer].Waiting? && s.core.drained
    case CloseClients(closer) => closer in s.closers && s.closers[closer].SeenDrained?
  }

  // Leaving never finds a budget, a counter or a semaphore in a state the block cannot take.
  predicate Safe(s: State, limits: Limits, e: Event) {
    e.Leave? && Enabled(s, limits, e) ==> CanLeave(s.core, limits, e.id, s.calls[e.id].principal)
  }

  function Next(s: State, limits: Limits, e: Event): State
    requires Enabled(s, limits, e) && Safe(s, limits, e)
  {
    match e
    case Enter(id, principal) =>
      var verdict := Verdict(s.core, limits, principal);
      s.(core := AfterEnter(s.core, limits, id, principal),
         calls := s.calls[id := if verdict == Admitted then Call(principal, Awaiting, false)
                                else Call(principal, Refused(verdict), false)])
    case WorkerDone(id) => s.(calls := s.calls[id := s.calls[id].(workerDone := true)])
    case Cancel(id) =>
      // Only the first cancellation of a waiting call sets its budget's event; later ones change nothing.
      if s.calls[id].stage.Awaiting? then
        s.(core := AfterSignal(s.core, id), calls := s.calls[id := s.calls[id].(stage := Draining)])
      else s
    case Observe(id) => s.(calls := s.calls[id := s.calls[id].(stage := Leaving)])
    case Leave(id) =>
      s.(core := AfterLeave(s.core, limits, id, s.calls[id].principal),
         calls := s.calls[id := s.calls[id].(stage := Released)])
    case BeginClose(closer) => s.(core := AfterBeginClose(s.core), closers := s.closers[closer := Waiting])
    case SeeDrained(closer) => s.(closers := s.closers[closer := SeenDrained])
    case CloseClients(closer) => s.(closers := s.closers[closer := ClosedClients], clientsClosed := true)
  }

  // ---- What every state keeps ----

  function InFlight(calls: map<CallId, Call>): set<CallId> {
    set id | id in calls && Holds(calls[id])
  }

  function HeldBy(calls: map<CallId, Call>, principal: string): set<CallId> {
    set id | id in calls && Holds(calls[id]) && calls[id].principal == Some(principal)
  }

  // Free permits and budgets in flight make up the capacity.
  ghost predicate SlotsConserved(s: State, limits: Limits) {
    && s.core.budgets == InFlight(s.calls)
    && FreePermits(s.core, limits) + |s.core.budgets| == limits.capacity
    && (s.core.permits.None? ==> s.core.budgets == {})
  }

  ghost predicate CounterExact(s: State, limits: Limits, p: string) {
    && Running(s.core, p) == |HeldBy(s.calls, p)| <= limits.perPrincipal
    && (p in s.core.active <==> HeldBy(s.calls, p) != {})
  }

  // Each principal's counter is the number of its calls in flight; none is kept at zero, none is over the limit.
  ghost predicate CountersExact(s: State, limits: Limits) {
    forall p :: CounterExact(s, limits, p)
  }

  ghost predicate DrainedExact(s: State) {
    s.core.drained <==> s.core.budgets == {}
  }

  // A call gives up its slot only after its worker, and a draining call has been signalled.
  ghost predicate CallsOrderly(s: State) {
    forall id :: id in s.calls ==>
      && (s.calls[id].stage.Leaving? || s.calls[id].stage.Released? ==> s.calls[id].workerDone)
      && (s.calls[id].stage.Draining? ==> id in s.core.signalled)
  }

  ghost predicate ShutdownSafe(s: State) {
    && (s.core.closed ==> s.core.budgets <= s.core.signalled)
    && (s.closers != map[] <==> s.core.closed)
    && (forall c :: c in s.closers && !s.closers[c].Waiting? ==> s.core.budgets == {})
    && (s.clientsClosed ==> s.core.closed && s.core.budgets == {})
    && (forall c :: c in s.closers && s.closers[c].ClosedClients? ==> s.clientsClosed)
  }

  ghost predicate Inv(s: State, limits: Limits) {
    SlotsConserved(s, limits) && CountersExact(s, limits) && DrainedExact(s) && CallsOrderly(s) && ShutdownSafe(s)
  }

  // ---- Every step keeps it ----

  lemma RefuseKeeps(s: State, limits: Limits, id: CallId, principal: Option<string>)
    requires Inv(s, limits) && id !in s.calls && Verdict(s.core, limits, principal) != Admitted
    ensures Inv(Next(s, limits, Enter(id, principal)), limits)
  {
    var t := Next(s, limits, Enter(id, principal));
    assert InFlight(t.calls) == InFlight(s.calls);
    forall p ensures CounterExact(t, limits, p) {
      assert CounterExact(s, limits, p);
      assert HeldBy(t.calls, p) == HeldBy(s.calls, p);
    }
  }

  lemma AdmitCounter(s: State, limits: Limits, id: CallId, principal: Option<string>, p: string)
    requires CounterExact(s, limits, p) && id !in s.calls && Verdict(s.core, limits, principal) == Admitted
    ensures CounterExact(Next(s, limits, Enter(id, principal)), limits, p)
  {
    var t := Next(s, limits, Enter(id, principal));
    if principal == Some(p) {
      assert HeldBy(t.calls, p) == HeldBy(s.calls, p) + {id};
    } else {
      assert HeldBy(t.calls, p) == HeldBy(s.calls, p);
    }
  }

  lemma AdmitKeeps(s: State, limits: Limits, id: CallId, principal: Option<string>)
    requires Inv(s, limits) && id !in s.calls && Verdict(s.core, limits, principal) == Admitted
    ensures Inv(Next(s, limits, Enter(id, principal)), limits)
  {
    hide CounterExact;
    var t := Next(s, limits, Enter(id, principal));
    assert InFlight(t.calls) == InFlight(s.calls) + {id};
    forall p ensures CounterExact(t, limits, p) {
      AdmitCounter(s, limits, id, principal, p);
    }
  }

  lemma LeaveSafe(s: State, limits: Limits, id: CallId)
    requires Inv(s, limits)
    ensures Safe(s, limits, Leave(id))
  {
    if Enabled(s, limits, Leave(id)) {
      assert id in InFlight(s.calls);
      var principal := s.calls[id].principal;
      if principal.Some? {
        assert CounterExact(s, limits, principal.value);
        assert id in HeldBy(s.calls, principal.value);
      }
    }
  }

  lemma LeaveCounter(s: State, limits: Limits, id: CallId, p: string)
    requires CounterExact(s, limits, p) && Enabled(s, limits, Leave(id)) && Safe(s, limits, Leave(id))
    ensures CounterExact(Next(s, limits, Leave(id)), limits, p)
  {
    var t := Next(s, limits, Leave(id));
    if s.calls[id].principal == Some(p) {
      assert HeldBy(t.calls, p) == HeldBy(s.calls, p) - {id};
    } else {
      assert HeldBy(t.calls, p) == HeldBy(s.calls, p);
    }
  }

  lemma LeaveKeeps(s: State, limits: Limits, id: CallId)
    requires Inv(s, limits) && Enabled(s, limits, Leave(id)) && Safe(s, limits, Leave(id))
    ensures Inv(Next(s, limits, Leave(id)), limits)
  {
    hide CounterExact;
    var t := Next(s, limits, Leave(id));
    assert InFlight(t.calls) == InFlight(s.calls) - {id};
    forall p ensures CounterExact(t, limits, p) {
      LeaveCounter(s, limits, id, p);
    }
  }

  lemma StageCounter(s: State, limits: Limits, e: Event, p: string)
    requires CounterExact(s, limits, p) && Enabled(s, limits, e) && (e.WorkerDone? || e.Cancel? || e.Observe?)
    ensures CounterExact(Next(s, limits, e), limits, p)
  {
    assert HeldBy(Next(s, limits, e).calls, p) == HeldBy(s.calls, p);
  }

  // A worker that ends, a cancellation and an observation move a call along, and free nothing.
  lemma StageKeeps(s: State, limits: Limits, e: Event)
    requires Inv(s, limits) && Enabled(s, limits, e) && (e.WorkerDone? || e.Cancel? || e.Observe?)
    ensures Inv(Next(s, limits, e), limits)
  {
    hide CounterExact;
    var t := Next(s, limits, e);
    assert InFlight(t.calls) == InFlight(s.calls);
    forall p ensures CounterExact(t, limits, p) {
      StageCounter(s, limits, e, p);
    }
  }

  lemma CloserKeeps(s: State, limits: Limits, e: Event)
    requires Inv(s, limits) && Enabled(s, limits, e) && (e.BeginClose? || e.SeeDrained? || e.CloseClients?)
    ensures Inv(Next(s, limits, e), limits)
  {
    forall p ensures CounterExact(Next(s, limits, e), limits, p) {
      assert CounterExact(s, limits, p);
    }
  }

  lemma StepKeeps(s: State, limits: Limits, e: Event)
    requires Inv(s, limits) && Enabled(s, limits, e)
    ensures Safe(s, limits, e) && Inv(Next(s, limits, e), limits)
  {
    hide Inv, Next;
    match e
    case Enter(id, principal) =>
      if Verdict(s.core, limits, principal) == Admitted {
        AdmitKeeps(s, limits, id, principal);
      } else {
        RefuseKeeps(s, limits, id, principal);
      }
    case Leave(id) => LeaveSafe(s, limits, id); LeaveKeeps(s, limits, id);
    case WorkerDone(_) => StageKeeps(s, limits, e);
    case Cancel(_) => StageKeeps(s, limits, e);
    case Observe(_) => StageKeeps(s, limits, e);
    case BeginClose(_) => CloserKeeps(s, limits, e);
    case SeeDrained(_) => CloserKeeps(s, limits, e);
    case CloseClients(_) => CloserKeeps(s, limits, e);
  }

  // ---- Runs ----

  // A run either reaches a state, or asks for a step that is not enabled, or breaks the executor.
  datatype Outcome = At(state: State) | NotEnabled | Broken

  function After(limits: Limits, run: seq<Event>): Outcome {
    if run == [] then At(START)
    else
      var before, e := After(limits, run[..|run| - 1]), run[|run| - 1];
      if !before.At? then before
      else if !Enabled(before.state, limits, e) then NotEnabled
      else if !Safe(before.state, limits, e) then Broken
      else At(Next(before.state, limits, e))
  }

  lemma StartKeeps(limits: Limits)
    ensures Inv(START, limits)
  {
    assert InFlight(START.calls) == {};
    forall p ensures CounterExact(START, limits, p) {
      assert HeldBy(START.calls, p) == {};
    }
  }

  // No interleaving breaks the executor, and every state it reaches keeps the invariant.
  lemma {:induction false} EveryRunSafe(limits: Limits, run: seq<Event>)
    ensures !After(limits, run).Broken?
    ensures After(limits, run).At? ==> Inv(After(limits, run).state, limits)
  {
    hide Inv, Next, Safe, Enabled;
    if run == [] {
      StartKeeps(limits);
    } else {
      var before, e := After(limits, run[..|run| - 1]), run[|run| - 1];
      EveryRunSafe(limits, run[..|run| - 1]);
      if before.At? && Enabled(before.state, limits, e) {
        StepKeeps(before.state, limits, e);
      }
    }
  }

  lemma CountsOf(s: State, limits: Limits, p: string)
    requires Inv(s, limits)
    ensures Running(s.core, p) == |HeldBy(s.calls, p)|
    ensures FreePermits(s.core, limits) == limits.capacity - |InFlight(s.calls)|
    ensures s.core.closed <==> s.closers != map[]
  {
    hide DrainedExact, CallsOrderly;
    assert CounterExact(s, limits, p);
  }

  // A new call is admitted exactly when no close has begun, its principal has room for one more call in
  // flight, and so has the server; it is told the first of these that fails, and no other call is touched.
  lemma AdmittedExactly(limits: Limits, run: seq<Event>, id: CallId, principal: Option<string>)
    requires After(limits, run).At? && id !in After(limits, run).state.calls
    ensures After(limits, run + [Enter(id, principal)]).At?
    ensures var s, t := After(limits, run).state, After(limits, run + [Enter(id, principal)]).state;
            && t.closers == s.closers
            && t.calls == s.calls[id := Call(principal, t.calls[id].stage, false)]
            && t.calls[id].stage ==
                 if s.closers != map[] then Refused(ShuttingDown)
                 else if principal.Some? && |HeldBy(s.calls, principal.value)| >= limits.perPrincipal then
                   Refused(PrincipalBusy)
                 else if |InFlight(s.calls)| >= limits.capacity then Refused(ServerBusy)
                 else Awaiting
  {
    hide Inv, InFlight, HeldBy;
    EveryRunSafe(limits, run);
    var s := After(limits, run).state;
    CountsOf(s, limits, if principal.Some? then principal.value else "");
    assert (run + [Enter(id, principal)])[..|run|] == run;
  }

  function Times(run: seq<Event>, e: Event): nat {
    if run == [] then 0 else Times(run[..|run| - 1], e) + if run[|run| - 1] == e then 1 else 0
  }

  function Released01(s: State, id: CallId): nat {
    if id in s.calls && s.calls[id].stage.Released? then 1 else 0
  }

  function Ended01(s: State, id: CallId): nat {
    if id in s.calls && s.calls[id].workerDone then 1 else 0
  }

  lemma OneStep(s: State, limits: Limits, e: Event, id: CallId)
    requires Inv(s, limits) && Enabled(s, limits, e) && Safe(s, limits, e)
    ensures var t := Next(s, limits, e);
            && Released01(t, id) == Released01(s, id) + (if e == Leave(id) then 1 else 0)
            && Ended01(t, id) == Ended01(s, id) + (if e == WorkerDone(id) then 1 else 0)
  {
    hide SlotsConserved, CountersExact, DrainedExact, ShutdownSafe, AfterEnter, AfterLeave;
  }

  lemma ReleasedAfterEnd(s: State, limits: Limits, id: CallId)
    requires Inv(s, limits)
    ensures Released01(s, id) <= Ended01(s, id)
  {
    hide SlotsConserved, CountersExact, DrainedExact, ShutdownSafe;
  }

  lemma NoneReleased(id: CallId)
    ensures Released01(START, id) == Ended01(START, id) == 0
  {
  }

  // A call's slot is given back at most once, and exactly once by the time the call is done; and its worker
  // ended, once, before that.
  lemma {:induction false} ReleasedOnce(limits: Limits, run: seq<Event>, id: CallId)
    requires After(limits, run).At?
    ensures var s := After(limits, run).state;
            && Times(run, Leave(id)) == Released01(s, id)
            && Times(run, WorkerDone(id)) == Ended01(s, id)
            && Times(run, Leave(id)) <= Times(run, WorkerDone(id))
  {
    hide Inv, Next, Enabled, Safe, Released01, Ended01;
    EveryRunSafe(limits, run);
    ReleasedAfterEnd(After(limits, run).state, limits, id);
    if run == [] {
      NoneReleased(id);
    } else {
      var front, e := run[..|run| - 1], run[|run| - 1];
      ReleasedOnce(limits, front, id);
      EveryRunSafe(limits, front);
      OneStep(After(limits, front).state, limits, e, id);
    }
  }

  // ---- Shutdown ----

  ghost predicate Continues(limits: Limits, early: seq<Event>, late: seq<Event>) {
    early <= late && After(limits, early).At? && After(limits, late).At?
  }

  lemma ContinuesBack(limits: Limits, early: seq<Event>, late: seq<Event>)
    requires Continues(limits, early, late) && early != late
    ensures Continues(limits, early, late[..|late| - 1])
  {
    assert early == late[..|early|];
    assert late[..|late| - 1][..|early|] == late[..|early|];
  }

  lemma ClosedStep(s: State, limits: Limits, e: Event)
    requires s.core.closed && Enabled(s, limits, e) && Safe(s, limits, e)
    ensures var t := Next(s, limits, e);
            && t.core.closed
            && t.core.budgets <= s.core.budgets
            && (forall id :: id in t.calls && id !in s.calls ==> t.calls[id].stage == Refused(ShuttingDown))
            && forall id :: id in s.calls ==>
                 id in t.calls && (s.calls[id].stage.Refused? ==> t.calls[id] == s.calls[id])
  {
  }

  // Once close has begun, the calls in flight only dwindle, and every later call is turned away.
  lemma {:induction false} NoneAdmittedAfterClose(limits: Limits, early: seq<Event>, late: seq<Event>)
    requires Continues(limits, early, late) && After(limits, early).state.core.closed
    ensures var s, t := After(limits, early).state, After(limits, late).state;
            && t.core.closed
            && t.core.budgets <= s.core.budgets
            && (forall id :: id in s.calls ==> id in t.calls)
            && forall id :: id in t.calls && id !in s.calls ==> t.calls[id].stage == Refused(ShuttingDown)
    decreases |late|
  {
    hide Next, Enabled, Safe;
    if early != late {
      ContinuesBack(limits, early, late);
      NoneAdmittedAfterClose(limits, early, late[..|late| - 1]);
      ClosedStep(After(limits, late[..|late| - 1]).state, limits, late[|late| - 1]);
    }
  }

  // Shared clients are closed only with nothing in flight, every budget then in flight having been signalled
  // and drained, and nothing is in flight ever after.
  lemma ClientsClosedForGood(limits: Limits, early: seq<Event>, late: seq<Event>)
    requires Continues(limits, early, late) && After(limits, early).state.clientsClosed
    ensures After(limits, late).state.core.budgets == {}
    ensures InFlight(After(limits, late).state.calls) == {}
  {
    EveryRunSafe(limits, early);
    EveryRunSafe(limits, late);
    NoneAdmittedAfterClose(limits, early, late);
  }

  lemma CloseSignalsAll(limits: Limits, run: seq<Event>)
    requires After(limits, run).At? && After(limits, run).state.core.closed
    ensures var s := After(limits, run).state;
            forall id :: id in InFlight(s.calls) ==> id in s.core.signalled
  {
    EveryRunSafe(limits, run);
  }

  // ---- Draining ----

  lemma AfterAppend(limits: Limits, run: seq<Event>, e: Event)
    requires After(limits, run).At? && Enabled(After(limits, run).state, limits, e)
    ensures Safe(After(limits, run).state, limits, e)
    ensures After(limits, run + [e]) == At(Next(After(limits, run).state, limits, e))
  {
    hide Next, Enabled, Safe, Inv;
    EveryRunSafe(limits, run);
    StepKeeps(After(limits, run).state, limits, e);
    assert (run + [e])[..|run|] == run;
  }

  // What a call in flight still has to do once its worker may end.
  function Rest(id: CallId, call: Call): seq<Event> {
    if call.stage.Leaving? then [Leave(id)]
    else if call.workerDone then [Observe(id), Leave(id)]
    else [WorkerDone(id), Observe(id), Leave(id)]
  }

  // The run goes on to a state that differs in flight only by this call having left.
  ghost predicate LetsGo(limits: Limits, run: seq<Event>, rest: seq<Event>, id: CallId) {
    && After(limits, run).At?
    && After(limits, run + rest).At?
    && var s, end := After(limits, run).state, After(limits, run + rest).state;
       end.core.budgets == s.core.budgets - {id} && end.closers == s.closers
  }

  lemma DrainLeaving(limits: Limits, run: seq<Event>, id: CallId)
    requires After(limits, run).At? && id in After(limits, run).state.calls
    requires After(limits, run).state.calls[id].stage.Leaving?
    ensures LetsGo(limits, run, [Leave(id)], id)
  {
    AfterAppend(limits, run, Leave(id));
  }

  lemma DrainDone(limits: Limits, run: seq<Event>, id: CallId)
    requires After(limits, run).At? && id in After(limits, run).state.calls
    requires Waits(After(limits, run).state.calls[id]) && After(limits, run).state.calls[id].workerDone
    ensures LetsGo(limits, run, [Observe(id), Leave(id)], id)
  {
    AfterAppend(limits, run, Observe(id));
    hide After;
    DrainLeaving(limits, run + [Observe(id)], id);
    assert run + [Observe(id), Leave(id)] == (run + [Observe(id)]) + [Leave(id)];
  }

  lemma DrainRunning(limits: Limits, run: seq<Event>, id: CallId)
    requires After(limits, run).At? && id in After(limits, run).state.calls
    requires Waits(After(limits, run).state.calls[id]) && !After(limits, run).state.calls[id].workerDone
    ensures LetsGo(limits, run, [WorkerDone(id), Observe(id), Leave(id)], id)
  {
    AfterAppend(limits, run, WorkerDone(id));
    hide After;
    DrainDone(limits, run + [WorkerDone(id)], id);
    assert run + [WorkerDone(id), Observe(id), Leave(id)] == (run + [WorkerDone(id)]) + [Observe(id), Leave(id)];
  }

  lemma DrainOne(limits: Limits, run: seq<Event>, id: CallId)
    requires After(limits, run).At? && id in InFlight(After(limits, run).state.calls)
    ensures LetsGo(limits, run, Rest(id, After(limits, run).state.calls[id]), id)
  {
    hide After, LetsGo;
    EveryRunSafe(limits, run);
    var call := After(limits, run).state.calls[id];
    if call.stage.Leaving? {
      DrainLeaving(limits, run, id);
    } else if call.workerDone {
      DrainDone(limits, run, id);
    } else {
      DrainRunning(limits, run, id);
    }
  }

  lemma NoCounterLeft(s: State, limits: Limits)
    requires Inv(s, limits) && s.core.budgets == {}
    ensures s.core.active == map[]
  {
    forall p ensures p !in s.core.active {
      assert CounterExact(s, limits, p);
      assert HeldBy(s.calls, p) <= InFlight(s.calls);
    }
  }

  // No slot is lost: from every state of every run, letting each worker end gives all permits back, in at
  // most three steps a call, without any call, cancellation or closer having to do anything more.
  lemma {:induction false} EveryRunDrains(limits: Limits, run: seq<Event>) returns (rest: seq<Event>)
    requires After(limits, run).At?
    ensures forall e :: e in rest ==> e.WorkerDone? || e.Observe? || e.Leave?
    ensures |rest| <= 3 * |InFlight(After(limits, run).state.calls)|
    ensures var end := After(limits, run + rest);
            && end.At?
            && end.state.core.budgets == {} && end.state.core.drained && end.state.core.active == map[]
            && FreePermits(end.state.core, limits) == limits.capacity
            && end.state.closers == After(limits, run).state.closers
    decreases |InFlight(After(limits, run).state.calls)|
  {
    hide Next, Enabled, Safe, After;
    var s := After(limits, run).state;
    EveryRunSafe(limits, run);
    var pending := InFlight(s.calls);
    if pending == {} {
      rest := [];
      assert run + rest == run;
      NoCounterLeft(s, limits);
    } else {
      var id :| id in pending;
      var first := Rest(id, s.calls[id]);
      DrainOne(limits, run, id);
      EveryRunSafe(limits, run + first);
      assert InFlight(After(limits, run + first).state.calls) == pending - {id};
      var others := EveryRunDrains(limits, run + first);
      rest := first + others;
      assert run + rest == (run + first) + others;
    }
  }

  // What a closer still has to do once nothing is in flight.
  function CloserRest(c: nat, closer: Closer): seq<Event> {
    match closer
    case Waiting => [SeeDrained(c), CloseClients(c)]
    case SeenDrained => [CloseClients(c)]
    case ClosedClients => []
  }

  lemma CloserFinishes(limits: Limits, run: seq<Event>, c: nat)
    requires After(limits, run).At? && c in After(limits, run).state.closers && After(limits, run).state.core.drained
    ensures var end := After(limits, run + CloserRest(c, After(limits, run).state.closers[c]));
            end.At? && end.state.clientsClosed && end.state.core == After(limits, run).state.core
  {
    hide After;
    var closer := After(limits, run).state.closers[c];
    match closer
    case Waiting =>
      AfterAppend(limits, run, SeeDrained(c));
      AfterAppend(limits, run + [SeeDrained(c)], CloseClients(c));
      assert run + [SeeDrained(c), CloseClients(c)] == (run + [SeeDrained(c)]) + [CloseClients(c)];
    case SeenDrained =>
      AfterAppend(limits, run, CloseClients(c));
    case ClosedClients =>
      EveryRunSafe(limits, run);
      assert run + [] == run;
  }

  lemma NoneInFlight(limits: Limits, run: seq<Event>)
    requires After(limits, run).At? && After(limits, run).state.core.budgets == {}
    ensures InFlight(After(limits, run).state.calls) == {}
  {
    hide After;
    EveryRunSafe(limits, run);
  }

  // Shutdown completes: once a closer has begun, the workers, the waiting calls and that closer alone can
  // bring every run to a state in which the shared clients are closed.
  lemma EveryCloseCompletes(limits: Limits, run: seq<Event>, c: nat) returns (rest: seq<Event>)
    requires After(limits, run).At? && c in After(limits, run).state.closers
    ensures forall e :: e in rest ==>
              e.WorkerDone? || e.Observe? || e.Leave? || e == SeeDrained(c) || e == CloseClients(c)
    ensures |rest| <= 3 * |InFlight(After(limits, run).state.calls)| + 2
    ensures After(limits, run + rest).At? && After(limits, run + rest).state.clientsClosed
    ensures InFlight(After(limits, run + rest).state.calls) == {}
  {
    hide After, Next, Enabled, Safe, Inv;
    var first := EveryRunDrains(limits, run);
    var last := CloserRest(c, After(limits, run + first).state.closers[c]);
    CloserFinishes(limits, run + first, c);
    rest := first + last;
    assert run + rest == (run + first) + last;
    NoneInFlight(limits, run + rest);
  }

  // Leaving right after entering puts everything back as it was.
  lemma LeaveUndoesEnter(s: State, limits: Limits, id: CallId, principal: Option<string>)
    requires Inv(s, limits) && id !in s.calls && Verdict(s.core, limits, principal) == Admitted
    ensures var entered := AfterEnter(s.core, limits, id, principal);
            && CanLeave(entered, limits, id, principal)
            && AfterLeave(entered, limits, id, principal) == s.core.(permits := Some(FreePermits(s.core, limits)))
  {
    var entered := AfterEnter(s.core, limits, id, principal);
    assert id !in s.core.budgets;
    assert entered.budgets - {id} == s.core.budgets;
    if principal.Some? {
      assert CounterExact(s, limits, principal.value);
    }
  }
}
