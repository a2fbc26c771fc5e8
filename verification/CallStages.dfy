/** How the wait of one call drives its stages in a run of the executor: src/policynim/interfaces/mcp.py. */
module CallStages {
  import opened SyncWait
  import opened Executor
  import opened ExecutorRuns

  // The event is none of this call's own.
  predicate Foreign(e: Event, id: CallId) {
    match e
    case Enter(other, _) => other != id
    case WorkerDone(other) => other != id
    case Cancel(other) => other != id
    case Observe(other) => other != id
    case Leave(other) => other != id
    case _ => true
  }

  // Whatever else goes on in the executor leaves a call's stage and worker alone.
  lemma OthersLeaveCall(s: State, limits: Limits, e: Event, id: CallId)
    requires id in s.calls && Enabled(s, limits, e) && Safe(s, limits, e) && Foreign(e, id)
    ensures id in Next(s, limits, e).calls && Next(s, limits, e).calls[id] == s.calls[id]
  {
  }

  // The steps of a stretch of a run that are a call's own.
  function Own(run: seq<Event>, id: CallId): seq<Event> {
    if run == [] then []
    else
      var e := run[|run| - 1];
      Own(run[..|run| - 1], id) + if Foreign(e, id) then [] else [e]
  }

  predicate Closes(run: seq<Event>) {
    exists k :: 0 <= k < |run| && run[k].BeginClose?
  }

  // ---- What a call in flight makes of its own steps ----

  function Step(call: Call, e: Event): Call {
    match e
    case WorkerDone(_) => call.(workerDone := true)
    case Cancel(_) => if call.stage.Awaiting? then call.(stage := Draining) else call
    case Observe(_) => call.(stage := Leaving)
    case _ => call
  }

  function Lived(call: Call, own: seq<Event>): Call {
    if own == [] then call else Step(Lived(call, own[..|own| - 1]), own[|own| - 1])
  }

  // Some cancellation finds the call still awaiting its worker.
  predicate Cancelled(call: Call, own: seq<Event>) {
    && own != []
    && var front, e := own[..|own| - 1], own[|own| - 1];
       Cancelled(call, front) || (e.Cancel? && Lived(call, front).stage.Awaiting?)
  }

  lemma LivedAppend(call: Call, own: seq<Event>, e: Event)
    ensures Lived(call, own + [e]) == Step(Lived(call, own), e)
    ensures Cancelled(call, own + [e]) <==> Cancelled(call, own) || (e.Cancel? && Lived(call, own).stage.Awaiting?)
  {
    assert (own + [e])[..|own|] == own;
  }

  lemma CallSteps(s: State, limits: Limits, e: Event, id: CallId)
    requires Inv(s, limits) && id in s.calls && Holds(s.calls[id])
    requires Enabled(s, limits, e) && Safe(s, limits, e) && e != Leave(id)
    ensures var t, call := Next(s, limits, e), s.calls[id];
            && id in t.calls && Holds(t.calls[id])
            && t.calls[id] == (if Foreign(e, id) then call else Step(call, e))
            && (id in t.core.signalled <==>
                  id in s.core.signalled || e.BeginClose? || (e == Cancel(id) && call.stage.Awaiting?))
  {
    hide CountersExact, DrainedExact, CallsOrderly, ShutdownSafe;
    assert id in InFlight(s.calls);
  }

  lemma OwnAppend(run: seq<Event>, e: Event, id: CallId)
    ensures Own(run + [e], id) == Own(run, id) + if Foreign(e, id) then [] else [e]
    ensures Closes(run + [e]) <==> Closes(run) || e.BeginClose?
  {
    var all := run + [e];
    assert all[..|run|] == run;
    if Closes(run) {
      var k :| 0 <= k < |run| && run[k].BeginClose?;
      assert all[k].BeginClose?;
    }
    if e.BeginClose? {
      assert all[|run|].BeginClose?;
    }
  }

  lemma OwnCancel(e: Event, id: CallId)
    ensures e.Cancel? && !Foreign(e, id) <==> e == Cancel(id)
  {
  }

  // From any state of a run on, a call in flight is what its own steps make of it, and is signalled by a
  // cancellation while it awaits its worker or by a closer, and by nothing else.
  lemma {:induction false} CallLives(limits: Limits, early: seq<Event>, late: seq<Event>, id: CallId)
    requires Continues(limits, early, late) && Leave(id) !in late[|early|..]
    requires id in After(limits, early).state.calls && Holds(After(limits, early).state.calls[id])
    ensures var s, t, tail := After(limits, early).state, After(limits, late).state, late[|early|..];
            && id in t.calls && Holds(t.calls[id])
            && t.calls[id] == Lived(s.calls[id], Own(tail, id))
            && (id in t.core.signalled <==>
                  id in s.core.signalled || Closes(tail) || Cancelled(s.calls[id], Own(tail, id)))
    decreases |late|
  {
    hide Inv, Next, Enabled, Safe, Foreign, Step, Holds;
    var s, tail := After(limits, early).state, late[|early|..];
    if early == late {
      assert tail == [];
    } else {
      var e, front := late[|late| - 1], late[..|late| - 1];
      var before := front[|early|..];
      assert tail == before + [e];
      ContinuesBack(limits, early, late);
      CallLives(limits, early, front, id);
      EveryRunSafe(limits, front);
      CallSteps(After(limits, front).state, limits, e, id);
      OwnAppend(before, e, id);
      LivedAppend(s.calls[id], Own(before, id), e);
      OwnCancel(e, id);
      assert Own(before, id) + [] == Own(before, id);
    }
  }

  // ---- The wait of a call ----

  function Cancels(id: CallId, n: nat): seq<Event> {
    if n == 0 then [] else Cancels(id, n - 1) + [Cancel(id)]
  }

  // What the wakes of a call's wait mean for it: every interruption is a cancellation, and the first wake
  // that finds the worker done lets the call go on.
  function EventsOf(wakes: seq<Wake>, id: CallId): seq<Event> {
    var n := FirstDone(wakes);
    if n == |wakes| then Cancels(id, n)
    else Cancels(id, n) + [WorkerDone(id)] + (if wakes[n].Interrupted? then [Cancel(id)] else []) + [Observe(id)]
  }

  predicate Entered(s: State, id: CallId) {
    id in s.calls && s.calls[id].stage.Awaiting? && !s.calls[id].workerDone
  }

  lemma {:induction false} LivedCancels(call: Call, id: CallId, n: nat)
    requires call.stage.Awaiting?
    ensures Lived(call, Cancels(id, n)) == call.(stage := if n == 0 then Awaiting else Draining)
    ensures Cancelled(call, Cancels(id, n)) <==> n > 0
  {
    if n > 0 {
      LivedCancels(call, id, n - 1);
      LivedAppend(call, Cancels(id, n - 1), Cancel(id));
    }
  }

  // Where a wait leaves its call: still waiting when no wake finds the worker done, and past it otherwise.
  function Waited(call: Call, wakes: seq<Wake>): Call {
    if FirstDone(wakes) < |wakes| then call.(stage := Leaving, workerDone := true)
    else if wakes == [] then call
    else call.(stage := Draining)
  }

  lemma LivedWakes(call: Call, id: CallId, wakes: seq<Wake>)
    requires call.stage.Awaiting? && !call.workerDone
    ensures Lived(call, EventsOf(wakes, id)) == Waited(call, wakes)
    ensures Cancelled(call, EventsOf(wakes, id)) <==> wakes != [] && wakes[0].Interrupted?
  {
    hide Cancels, Lived, Cancelled;
    var n := FirstDone(wakes);
    LivedCancels(call, id, n);
    if n < |wakes| {
      var done := Cancels(id, n) + [WorkerDone(id)];
      LivedAppend(call, Cancels(id, n), WorkerDone(id));
      LivedAppend(call, done, Cancel(id));
      LivedAppend(call, done + [Cancel(id)], Observe(id));
      LivedAppend(call, done + [], Observe(id));
      assert done + [] == done;
    }
  }

  lemma {:induction false} NoLeave(run: seq<Event>, id: CallId)
    requires Leave(id) !in Own(run, id)
    ensures Leave(id) !in run
  {
    if run != [] {
      NoLeave(run[..|run| - 1], id);
      assert run == run[..|run| - 1] + [run[|run| - 1]];
    }
  }

  lemma {:induction false} CancelsOnly(id: CallId, n: nat)
    ensures forall e :: e in Cancels(id, n) ==> e == Cancel(id)
  {
    if n > 0 {
      CancelsOnly(id, n - 1);
    }
  }

  // Whatever other calls and closers do in between, the wait drives its call to where the wait itself ends;
  // and the call is signalled by its first wake, if that is an interruption, or by a closer.
  lemma WakesDriveCall(limits: Limits, early: seq<Event>, late: seq<Event>, id: CallId, wakes: seq<Wake>)
    requires Continues(limits, early, late) && Entered(After(limits, early).state, id)
    requires Own(late[|early|..], id) == EventsOf(wakes, id)
    ensures var s, t := After(limits, early).state, After(limits, late).state;
            && id in t.calls && t.calls[id] == Waited(s.calls[id], wakes)
            && (id in t.core.signalled <==>
                  id in s.core.signalled || Closes(late[|early|..]) || (wakes != [] && wakes[0].Interrupted?))
  {
    hide After, Lived, Cancelled, Own;
    CancelsOnly(id, FirstDone(wakes));
    NoLeave(late[|early|..], id);
    CallLives(limits, early, late, id);
    LivedWakes(After(limits, early).state.calls[id], id, wakes);
  }

  lemma AwaitingWaits(s: State, id: CallId)
    requires Entered(s, id)
    ensures Waits(s.calls[id])
  {
  }

  lemma WaitingStep(s: State, limits: Limits, e: Event, id: CallId)
    requires id in s.calls && Waits(s.calls[id]) && !s.calls[id].workerDone
    requires Enabled(s, limits, e) && Safe(s, limits, e) && e != WorkerDone(id)
    ensures var t := Next(s, limits, e);
            id in t.calls && Waits(t.calls[id]) && !t.calls[id].workerDone
  {
    hide Verdict, AfterEnter, AfterLeave, CanLeave;
  }

  lemma {:induction false} StillWaits(limits: Limits, early: seq<Event>, late: seq<Event>, id: CallId)
    requires Continues(limits, early, late) && Entered(After(limits, early).state, id)
    requires WorkerDone(id) !in late[|early|..]
    ensures var t := After(limits, late).state;
            id in t.calls && Waits(t.calls[id]) && !t.calls[id].workerDone
    decreases |late|
  {
    hide Next, Enabled, Safe, Waits;
    if early == late {
      AwaitingWaits(After(limits, early).state, id);
    } else {
      var e, front := late[|late| - 1], late[..|late| - 1];
      assert late[|early|..] == front[|early|..] + [e];
      ContinuesBack(limits, early, late);
      StillWaits(limits, early, front, id);
      WaitingStep(After(limits, front).state, limits, e, id);
    }
  }

  // However often it is cancelled, and whatever else goes on, a call keeps its slot and goes on to nothing
  // until its worker is done.
  lemma NotBeforeDone(limits: Limits, early: seq<Event>, late: seq<Event>, id: CallId)
    requires Continues(limits, early, late) && Entered(After(limits, early).state, id)
    requires WorkerDone(id) !in late[|early|..]
    ensures var t := After(limits, late).state;
            && id in t.core.budgets
            && Enabled(t, limits, WorkerDone(id))
            && !Enabled(t, limits, Observe(id)) && !Enabled(t, limits, Leave(id))
  {
    EveryRunSafe(limits, late);
    StillWaits(limits, early, late, id);
    assert id in InFlight(After(limits, late).state.calls);
  }

  // ---- Every wait is a run ----

  lemma {:induction false} CancelsFollow(limits: Limits, run: seq<Event>, id: CallId, n: nat)
    requires After(limits, run).At? && Entered(After(limits, run).state, id)
    ensures var end := After(limits, run + Cancels(id, n));
            && end.At? && id in end.state.calls
            && Waits(end.state.calls[id]) && !end.state.calls[id].workerDone
  {
    hide After;
    if n == 0 {
      assert run + Cancels(id, 0) == run;
    } else {
      CancelsFollow(limits, run, id, n - 1);
      AfterAppend(limits, run + Cancels(id, n - 1), Cancel(id));
      assert run + Cancels(id, n) == (run + Cancels(id, n - 1)) + [Cancel(id)];
    }
  }

  lemma GoesOn(limits: Limits, run: seq<Event>, id: CallId, interrupted: bool)
    requires After(limits, run).At? && id in After(limits, run).state.calls
    requires Waits(After(limits, run).state.calls[id]) && !After(limits, run).state.calls[id].workerDone
    ensures After(limits, run + ([WorkerDone(id)] + (if interrupted then [Cancel(id)] else []) + [Observe(id)])).At?
  {
    hide After;
    AfterAppend(limits, run, WorkerDone(id));
    var done := run + [WorkerDone(id)];
    if interrupted {
      AfterAppend(limits, done, Cancel(id));
      AfterAppend(limits, done + [Cancel(id)], Observe(id));
      assert run + ([WorkerDone(id)] + [Cancel(id)] + [Observe(id)]) == (done + [Cancel(id)]) + [Observe(id)];
    } else {
      AfterAppend(limits, done, Observe(id));
      assert run + ([WorkerDone(id)] + [] + [Observe(id)]) == done + [Observe(id)];
    }
  }

  lemma {:induction false} OwnSteps(own: seq<Event>, id: CallId)
    requires forall i :: 0 <= i < |own| ==> !Foreign(own[i], id)
    ensures Own(own, id) == own
  {
    hide Foreign;
    if own != [] {
      OwnSteps(own[..|own| - 1], id);
    }
  }

  lemma EventsOwn(wakes: seq<Wake>, id: CallId)
    ensures Own(EventsOf(wakes, id), id) == EventsOf(wakes, id)
  {
    hide Cancels, Own;
    var own := EventsOf(wakes, id);
    CancelsOnly(id, FirstDone(wakes));
    forall i | 0 <= i < |own| ensures !Foreign(own[i], id) {
      assert own[i] in own;
    }
    OwnSteps(own, id);
  }

  // Any wakes at all can follow in a run: the executor enables every step of every wait.
  lemma WaitRuns(limits: Limits, run: seq<Event>, id: CallId, wakes: seq<Wake>)
    requires After(limits, run).At? && Entered(After(limits, run).state, id)
    ensures var late := run + EventsOf(wakes, id);
            Continues(limits, run, late) && Own(late[|run|..], id) == EventsOf(wakes, id)
  {
    hide After, Cancels, Own, Entered, Foreign;
    var n := FirstDone(wakes);
    CancelsFollow(limits, run, id, n);
    EventsOwn(wakes, id);
    assert (run + EventsOf(wakes, id))[|run|..] == EventsOf(wakes, id);
    if n < |wakes| {
      GoesOn(limits, run + Cancels(id, n), id, wakes[n].Interrupted?);
      var rest := [WorkerDone(id)] + (if wakes[n].Interrupted? then [Cancel(id)] else []) + [Observe(id)];
      assert run + EventsOf(wakes, id) == (run + Cancels(id, n)) + rest;
    }
  }
}
