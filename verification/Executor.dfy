/** The admission executor of src/policynim/interfaces/mcp.py: the fields it guards with a lock, and the
    blocks of code that run while the lock is held. */
module Executor {
  import opened Results

  // Budgets are named by the call that owns them.
  type CallId = nat

  datatype Limits = Limits(capacity: nat, perPrincipal: nat)

  // The executor's own capacity, if it was given a positive one, and the settings' otherwise.
  function EffectiveCapacity(own: Option<nat>, fromSettings: nat): nat {
    if own.Some? && own.value != 0 then own.value else fromSettings
  }

  datatype Admission = Admitted | ShuttingDown | PrincipalBusy | ServerBusy

  // `permits` is the semaphore's free count once the semaphore exists. `signalled` are the budgets whose
  // cancellation event is set.
  datatype Core = Core(permits: Option<nat>, budgets: set<CallId>, active: map<string, nat>,
                       closed: bool, drained: bool, signalled: set<CallId>)

  const IDLE := Core(None, {}, map[], false, true, {})

  function Running(core: Core, principal: string): nat {
    if principal in core.active then core.active[principal] else 0
  }

  function FreePermits(core: Core, limits: Limits): nat {
    if core.permits.Some? then core.permits.value else limits.capacity
  }

  function Verdict(core: Core, limits: Limits, principal: Option<string>): Admission {
    if core.closed then ShuttingDown
    else if principal.Some? && Running(core, principal.value) >= limits.perPrincipal then PrincipalBusy
    else if FreePermits(core, limits) == 0 then ServerBusy
    else Admitted
  }

  function AfterEnter(core: Core, limits: Limits, id: CallId, principal: Option<string>): Core {
    match Verdict(core, limits, principal)
    case ShuttingDown => core
    case PrincipalBusy => core.(permits := Some(FreePermits(core, limits)))
    case ServerBusy => core.(permits := Some(FreePermits(core, limits)))
    case Admitted =>
      core.(permits := Some(FreePermits(core, limits) - 1),
            budgets := core.budgets + {id},
            active := if principal.None? then core.active
                      else core.active[principal.value := Running(core, principal.value) + 1],
            drained := false)
  }

  // What the block below needs: the budget and its counter are there, and the bounded semaphore is not full.
  predicate CanLeave(core: Core, limits: Limits, id: CallId, principal: Option<string>) {
    && id in core.budgets
    && core.permits.Some? && core.permits.value < limits.capacity
    && (principal.Some? ==> Running(core, principal.value) > 0)
  }

  function AfterLeave(core: Core, limits: Limits, id: CallId, principal: Option<string>): Core
    requires CanLeave(core, limits, id, principal)
  {
    var budgets := core.budgets - {id};
    core.(permits := Some(core.permits.value + 1),
          budgets := budgets,
          active := if principal.None? then core.active
                    else if Running(core, principal.value) == 1 then core.active - {principal.value}
                    else core.active[principal.value := Running(core, principal.value) - 1],
          drained := core.drained || budgets == {})
  }

  function AfterBeginClose(core: Core): Core {
    core.(closed := true, signalled := core.signalled + core.budgets)
  }

  function AfterSignal(core: Core, id: CallId): Core {
    core.(signalled := core.signalled + {id})
  }

  class ToolExecutor {
    const limits: Limits
    var permits: Option<nat>
    var budgets: set<CallId>
    var active: map<string, nat>
    var closed: bool
    var drained: bool
    var signalled: set<CallId>

    function Snapshot(): Core
      reads this
    {
      Core(permits, budgets, active, closed, drained, signalled)
    }

    constructor (own: Option<nat>, fromSettings: nat, perPrincipal: nat)
      ensures Snapshot() == IDLE
      ensures limits.perPrincipal == perPrincipal
      ensures own.Some? && own.value > 0 ==> limits.capacity == own.value
      ensures own.None? || own.value == 0 ==> limits.capacity == fromSettings
    {
      limits := Limits(EffectiveCapacity(own, fromSettings), perPrincipal);
      permits, budgets, active, closed, drained, signalled := None, {}, map[], false, true, {};
    }

    // The first locked block of run: make the semaphore if there is none, and admit the call or refuse it.
    method Enter(id: CallId, principal: Option<string>) returns (admission: Admission)
      modifies this
      ensures admission == Verdict(old(Snapshot()), limits, principal)
      ensures Snapshot() == AfterEnter(old(Snapshot()), limits, id, principal)
    {
      if closed {
        return ShuttingDown;
      }
      if permits.None? {
        permits := Some(limits.capacity);
      }
      if principal.Some? && (if principal.value in active then active[principal.value] else 0) >= limits.perPrincipal {
        return PrincipalBusy;
      }
      if permits.value == 0 {
        return ServerBusy;
      }
      permits := Some(permits.value - 1);
      if principal.Some? {
        active := active[principal.value := (if principal.value in active then active[principal.value] else 0) + 1];
      }
      budgets := budgets + {id};
      drained := false;
      return Admitted;
    }

    // The last locked block of run, in its finally clause.
    method Leave(id: CallId, principal: Option<string>)
      requires CanLeave(Snapshot(), limits, id, principal)
      modifies this
      ensures Snapshot() == AfterLeave(old(Snapshot()), limits, id, principal)
    {
      budgets := budgets - {id};
      if principal.Some? {
        var remaining := active[principal.value] - 1;
        if remaining != 0 {
          active := active[principal.value := remaining];
        } else {
          active := active - {principal.value};
        }
      }
      permits := Some(permits.value + 1);
      if budgets == {} {
        drained := true;
      }
    }

    // The locked block of close: refuse new calls and signal those in flight.
    method BeginClose()
      modifies this
      ensures Snapshot() == AfterBeginClose(old(Snapshot()))
    {
      closed := true;
      var pending := budgets;
      while pending != {}
        invariant pending <= budgets && closed
        invariant signalled == old(signalled) + (budgets - pending)
        invariant unchanged(`permits, `budgets, `active, `drained)
        decreases |pending|
      {
        var id :| id in pending;
        signalled := signalled + {id};
        pending := pending - {id};
      }
    }

    method Signal(id: CallId)
      modifies this`signalled
      ensures Snapshot() == AfterSignal(old(Snapshot()), id)
    {
      signalled := signalled + {id};
    }
  }
}
