/** One deadline, one cancellation event and the usage counters shared by the stages of an operation:
    src/policynim/operations.py. */
module Budget {
  import opened Results

  datatype Failure =
    | Cancelled | DeadlineExhausted | BudgetExhausted | CallbackFailed
    | InvalidResponse | Auth | BadRequest | RateLimit | HttpStatus | EndpointNotFound | EndpointUnavailable
    | TimedOut | NotConnected | Unexpected | Interrupted | RetryAfterLimit | ProviderFailure(name: string)

  // Why a budget cannot be made.
  datatype Refusal = InvalidTimeout | InvalidCallBudget

  // Something that took time: asked for `amount` when the time left was measured at `granted`.
  datatype Span = Span(granted: real, start: real, amount: real, finish: real)

  datatype Usage = Usage(attempts: int, tokens: int, unavailable: int)

  function Sum(tokens: seq<nat>): nat {
    if tokens == [] then 0 else Sum(tokens[..|tokens| - 1]) + tokens[|tokens| - 1]
  }

  lemma SumAppend(tokens: seq<nat>, n: nat)
    ensures Sum(tokens + [n]) == Sum(tokens) + n
  {
    assert (tokens + [n])[..|tokens|] == tokens;
  }

  // What the operation does not control. Time only advances, a set event stays set, and a usage callback
  // may fail, with or without having stored what it was given.
  class World {
    var now: real
    var cancelled: bool
    var persisted: Usage
    ghost var sends: nat

    constructor (now: real)
      ensures !cancelled && persisted == Usage(0, 0, 0) && sends == 0
    {
      this.now, cancelled, persisted, sends := now, false, Usage(0, 0, 0), 0;
    }

    method PassTime(least: real)
      modifies this`now
      ensures now >= old(now) && now >= least
    {
      var later: real := *;
      if least > now {
        now := least;
      }
      if later > now {
        now := later;
      }
    }

    method IsSet() returns (set_: bool)
      modifies this`cancelled, this`now
      ensures set_ == cancelled && (old(cancelled) ==> cancelled) && now >= old(now)
    {
      PassTime(now);
      if * {
        cancelled := true;
      }
      set_ := cancelled;
    }

    // Event.wait: it comes back early only when the event is set.
    method Pause(seconds: real)
      modifies this`cancelled, this`now
      ensures now >= old(now) && (old(cancelled) ==> cancelled)
      ensures cancelled || now >= old(now) + seconds
    {
      if * {
        cancelled := true;
      }
      PassTime(if cancelled then now else now + seconds);
    }

    method Persist(usage: Usage) returns (stored: bool)
      modifies this`persisted, this`now
      ensures stored ==> persisted == usage
      ensures persisted == usage || persisted == old(persisted)
      ensures now >= old(now)
    {
      PassTime(now);
      if * {
        persisted := usage;
        stored := *;
      } else {
        stored := false;
      }
    }
  }

  class OperationBudget {
    const world: World
    const deadline: real
    const maxCalls: Option<nat>
    const hasCallback: bool
    var attempts: int
    var measuredTokens: int
    var unavailable: int
    // The token counts recorded so far, one for each measured call.
    ghost var reported: seq<nat>

    ghost predicate Counted()
      reads this
    {
      && 0 <= unavailable <= attempts
      && (maxCalls.Some? ==> attempts <= maxCalls.value)
      && attempts - unavailable == |reported|
      && measuredTokens == Sum(reported)
    }

    // Every reservation has been followed by its send, and what is stored accounts for every send.
    ghost predicate Settled()
      reads this, world
    {
      && Counted()
      && attempts == world.sends
      && (hasCallback ==> world.persisted.attempts >= world.sends)
    }

    // One call is reserved beyond those sent, and the store knows of it.
    ghost predicate Reserved()
      reads this, world
    {
      && Counted()
      && attempts == world.sends + 1
      && unavailable >= 1
      && (hasCallback ==> world.persisted.attempts >= attempts)
    }

    function Counters(): Usage
      reads this
    {
      Usage(attempts, measuredTokens, unavailable)
    }

    constructor (world: World, seconds: real, maxCalls: Option<nat>, hasCallback: bool)
      requires seconds > 0.0 && (maxCalls.Some? ==> maxCalls.value >= 1) && world.sends == 0
      requires world.persisted.attempts >= 0
      ensures this.world == world && this.maxCalls == maxCalls && this.hasCallback == hasCallback
      ensures deadline == world.now + seconds && Settled() && Counters() == Usage(0, 0, 0)
    {
      this.world, this.maxCalls, this.hasCallback := world, maxCalls, hasCallback;
      deadline := world.now + seconds;
      attempts, measuredTokens, unavailable, reported := 0, 0, 0, [];
    }

    // A budget needs a positive time and, if it bounds calls, a positive bound; others are refused.
    static method Create(world: World, seconds: real, maxCalls: Option<int>, hasCallback: bool)
      returns (r: Result<OperationBudget, Refusal>)
      requires world.sends == 0 && world.persisted.attempts >= 0
      ensures r == Err(InvalidTimeout) <==> seconds <= 0.0
      ensures r == Err(InvalidCallBudget) <==> seconds > 0.0 && maxCalls.Some? && maxCalls.value < 1
      ensures r.Ok? ==>
                && fresh(r.value) && r.value.world == world && r.value.hasCallback == hasCallback
                && r.value.deadline == world.now + seconds
                && r.value.maxCalls == (if maxCalls.None? then None else Some(maxCalls.value))
                && r.value.Settled() && r.value.Counters() == Usage(0, 0, 0)
    {
      if seconds <= 0.0 {
        return Err(InvalidTimeout);
      }
      if maxCalls.Some? && maxCalls.value < 1 {
        return Err(InvalidCallBudget);
      }
      var bound: Option<nat> := if maxCalls.None? then None else Some(maxCalls.value);
      var budget := new OperationBudget(world, seconds, bound, hasCallback);
      return Ok(budget);
    }

    // The budget has a reason for this failure: a set event, a deadline that leaves no more than `room`, no
    // calls left, or a callback to fail.
    ghost predicate Justified(failure: Failure, room: real)
      reads this, world
    {
      match failure
      case Cancelled => world.cancelled
      case DeadlineExhausted => deadline - world.now <= room
      case BudgetExhausted => maxCalls.Some? && attempts == maxCalls.value
      case CallbackFailed => hasCallback
      case _ => false
    }

    // Time left is positive and is measured at the moment of asking; a cancelled or expired operation is
    // told so instead.
    method Remaining() returns (left: Result<real, Failure>)
      modifies world`now, world`cancelled
      ensures world.now >= old(world.now) && (old(world.cancelled) ==> world.cancelled)
      ensures left.Ok? ==> left.value == deadline - world.now > 0.0 && !world.cancelled
      ensures left.Err? ==>
                || (left.error == Cancelled && world.cancelled)
                || (left.error == DeadlineExhausted && world.now >= deadline)
    {
      var set_ := world.IsSet();
      if set_ {
        return Err(Cancelled);
      }
      world.PassTime(world.now);
      var remaining := deadline - world.now;
      if remaining <= 0.0 {
        return Err(DeadlineExhausted);
      }
      return Ok(remaining);
    }

    method RecordUsage() returns (ok: bool)
      modifies world`persisted, world`now
      ensures world.now >= old(world.now)
      ensures ok && hasCallback ==> world.persisted == Counters()
      ensures !ok ==> hasCallback
      ensures world.persisted == Counters() || world.persisted == old(world.persisted)
    {
      if hasCallback {
        ok := world.Persist(Counters());
      } else {
        ok := true;
      }
    }

    // A reserved call is stored before it may be sent; a failed reservation leaves the counters as they were.
    method ReserveProviderCall() returns (left: Result<real, Failure>)
      requires Settled()
      modifies this, world`now, world`cancelled, world`persisted
      ensures world.now >= old(world.now) && (old(world.cancelled) ==> world.cancelled)
      ensures left.Ok? ==> Reserved() && attempts == old(attempts) + 1 && unavailable == old(unavailable) + 1
      ensures left.Ok? ==> left.value == deadline - world.now > 0.0
      ensures left.Err? ==> Settled() && Counters() == old(Counters())
      ensures left.Err? ==> Justified(left.error, 0.0)
      ensures maxCalls.Some? && old(attempts) == maxCalls.value ==>
                && left.Err? && left.error in {Cancelled, DeadlineExhausted, BudgetExhausted}
                && world.persisted == old(world.persisted)
      ensures left == Err(BudgetExhausted) ==> maxCalls.Some? && old(attempts) == maxCalls.value
      ensures left.Err? && left.error != CallbackFailed && hasCallback ==>
                world.persisted == old(world.persisted) || world.persisted == Counters()
      ensures reported == old(reported)
    {
      hide Sum;
      left := Remaining();
      if left.Err? {
        return;
      }
      if maxCalls.Some? && attempts >= maxCalls.value {
        return Err(BudgetExhausted);
      }
      attempts, unavailable := attempts + 1, unavailable + 1;
      var stored := RecordUsage();
      if stored {
        left := Remaining();
        if left.Ok? {
          return;
        }
      } else {
        left := Err(CallbackFailed);
      }
      attempts, unavailable := attempts - 1, unavailable - 1;
      stored := RecordUsage();
      if !stored {
        left := Err(CallbackFailed);
      }
    }

    // Measured usage moves one call from the unavailable ones to the measured, even when the callback fails.
    method RecordProviderUsage(total: Option<nat>) returns (ok: bool)
      requires Settled() && (total.Some? ==> unavailable >= 1)
      modifies this, world`now, world`persisted
      ensures Settled() && attempts == old(attempts) && world.now >= old(world.now)
      ensures reported == old(reported) + AsSeq(total)
      ensures total.None? ==> ok && Counters() == old(Counters())
      ensures !ok ==> hasCallback
    {
      if total.None? {
        return true;
      }
      SumAppend(reported, total.value);
      measuredTokens, unavailable := measuredTokens + total.value, unavailable - 1;
      reported := reported + [total.value];
      ok := RecordUsage();
    }

    // A wait that would leave no time for another attempt is refused. One that is started is shorter than
    // the time left when that was measured, and is cut short only by a cancellation, which is then reported.
    method Wait(seconds: real) returns (outcome: Result<real, Failure>, ghost waited: Option<Span>)
      modifies world`now, world`cancelled
      ensures world.now >= old(world.now) && (old(world.cancelled) ==> world.cancelled)
      ensures outcome.Ok? ==> waited.Some?
      ensures waited.Some? ==>
                && waited.value.amount == seconds
                && old(world.now) <= waited.value.granted <= waited.value.start <= waited.value.finish <= world.now
                && waited.value.granted + seconds < deadline
                && (outcome.Ok? ==> waited.value.start + seconds <= waited.value.finish)
      ensures outcome.Err? ==> outcome.error == Cancelled || outcome.error == DeadlineExhausted
      ensures outcome.Err? ==> Justified(outcome.error, if waited.Some? || seconds < 0.0 then 0.0 else seconds)
    {
      waited := None;
      outcome := Remaining();
      if outcome.Err? {
        return;
      }
      if seconds >= outcome.value {
        return Err(DeadlineExhausted), None;
      }
      ghost var granted := world.now;
      world.PassTime(world.now);
      ghost var start := world.now;
      world.Pause(seconds);
      waited := Some(Span(granted, start, seconds, world.now));
      outcome := Remaining();
    }
  }
}
