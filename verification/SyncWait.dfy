/** Waiting for synchronous work whatever cancellations arrive: src/policynim/interfaces/mcp.py. */
module SyncWait {
  import opened Results

  // Why a shielded await comes back: the worker ended, or a cancellation was delivered, perhaps when the
  // worker had ended already.
  datatype Wake = Ended | Interrupted(workerDone: bool)

  // A worker that fails with something that is no ordinary exception is not caught by the drain; one whose
  // own task is cancelled looks like a cancellation of the wait.
  datatype WorkerEnd = Value | Failed | Fatal | TaskCancelled

  datatype Ending = ReturnsValue | RaisesWorkerError | RaisesCancelled

  predicate SeesDone(wake: Wake) {
    wake.Ended? || wake.workerDone
  }

  // The index of the first wake that finds the worker done, or the number of wakes.
  function FirstDone(wakes: seq<Wake>): (i: nat)
    ensures i <= |wakes|
    ensures i < |wakes| ==> SeesDone(wakes[i])
    ensures forall k :: 0 <= k < i ==> !SeesDone(wakes[k])
  {
    if wakes == [] || SeesDone(wakes[0]) then 0 else FirstDone(wakes[1..]) + 1
  }

  // The first await raises a cancellation.
  predicate FirstCancelled(wakes: seq<Wake>, end: WorkerEnd) {
    wakes != [] && (wakes[0].Interrupted? || end.TaskCancelled?)
  }

  // The wait ends at the first wake that finds the worker done and at no other; the budget is signalled
  // once, by a cancellation of the first await. A wait so cancelled raises its cancellation, unless the
  // worker's own failure is not one that the drain catches; and any other wait passes on what the worker
  // did, unless its scope was cancelled meanwhile.
  method RunSyncUntilComplete(wakes: seq<Wake>, end: WorkerEnd, scopeCancelled: bool)
    returns (ending: Option<Ending>, used: nat, signals: nat)
    ensures ending.None? <==> forall k :: 0 <= k < |wakes| ==> !SeesDone(wakes[k])
    ensures ending.Some? ==>
              && 0 < used <= |wakes| && SeesDone(wakes[used - 1])
              && forall k :: 0 <= k < used - 1 ==> !SeesDone(wakes[k])
    ensures signals == if FirstCancelled(wakes, end) then 1 else 0
    ensures ending.Some? && FirstCancelled(wakes, end) ==>
              ending.value == if end.Fatal? && wakes[used - 1].Ended? then RaisesWorkerError else RaisesCancelled
    ensures ending.Some? && !FirstCancelled(wakes, end) ==>
              && (end.Value? && !scopeCancelled ==> ending.value == ReturnsValue)
              && (end.Value? && scopeCancelled ==> ending.value == RaisesCancelled)
              && (end.Failed? || end.Fatal? ==> ending.value == RaisesWorkerError)
  {
    ending, used, signals := None, 0, 0;
    if wakes == [] {
      return;
    }
    used := 1;
    if wakes[0].Ended? && !end.TaskCancelled? {
      if end != Value {
        ending := Some(RaisesWorkerError);
      } else if scopeCancelled {
        ending := Some(RaisesCancelled);
      } else {
        ending := Some(ReturnsValue);
      }
      return;
    }
    signals := 1;
    var done := SeesDone(wakes[0]);
    while !done
      invariant 1 <= used <= |wakes|
      invariant done == SeesDone(wakes[used - 1])
      invariant forall k :: 0 <= k < used - 1 ==> !SeesDone(wakes[k])
      invariant done && wakes[used - 1].Ended? ==> !end.Fatal?
      decreases |wakes| - used, !done
    {
      if used == |wakes| {
        return;
      }
      var wake := wakes[used];
      used := used + 1;
      match wake {
        case Ended =>
          if end == Fatal {
            ending := Some(RaisesWorkerError);
            return;
          }
          done := true;
        case Interrupted(workerDone) =>
          done := workerDone;
      }
    }
    ending := Some(RaisesCancelled);
  }
}
