/** The retry loop of src/policynim/providers/nvidia.py: classified failures, bounded attempts, backoff and
    requested delays under one deadline. */
module Retry {
  import opened Results
  import opened Budget

  // ---- Failures ----

  // A Retry-After header: missing, unreadable, a number of seconds that may not be finite, or a date so
  // many seconds from now.
  datatype Header = Absent | Unreadable | Seconds(value: real) | NotFinite | Date(fromNow: real)

  datatype Raised =
    | BadResponse | BadCredentials | BadInput | Status(code: int, header: Header)
    | Timeout | Disconnected | Provider(failure: Failure) | Other | Interruption

  predicate ShouldRetryStatus(code: int) {
    code == 429 || code >= 500
  }

  // How the loop names a failure, and whether it goes on.
  datatype Ruling = GoOn(failure: Failure) | GiveUp(failure: Failure)

  function Classify(raised: Raised): Ruling {
    match raised
    case BadResponse => GiveUp(InvalidResponse)
    case BadCredentials => GiveUp(Auth)
    case BadInput => GiveUp(BadRequest)
    case Status(code, _) =>
      if code == 404 then GiveUp(EndpointNotFound)
      else if code == 410 then GiveUp(EndpointUnavailable)
      else if code == 401 || code == 403 then GiveUp(Auth)
      else if !ShouldRetryStatus(code) then GiveUp(HttpStatus)
      else GoOn(if code == 429 then RateLimit else HttpStatus)
    case Timeout => GoOn(TimedOut)
    case Disconnected => GoOn(NotConnected)
    case Provider(failure) => GiveUp(failure)
    case Other => GiveUp(Unexpected)
    case Interruption => GiveUp(Interrupted)
  }

  // Only a rate limit, a server error, a timeout or a lost connection is worth another attempt.
  predicate Transient(raised: Raised) {
    raised.Timeout? || raised.Disconnected? || (raised.Status? && (raised.code == 429 || raised.code >= 500))
  }

  lemma OnlyTransientGoesOn(raised: Raised)
    ensures Classify(raised).GoOn? <==> Transient(raised)
  {
  }

  function RetryAfterSeconds(raised: Raised): (r: Option<real>)
    ensures r.Some? ==> r.value >= 0.0
  {
    if !raised.Status? then None
    else
      match raised.header
      case Absent => None
      case Unreadable => None
      case NotFinite => None
      case Seconds(value) => Some(if value < 0.0 then 0.0 else value)
      case Date(fromNow) => Some(if fromNow < 0.0 then 0.0 else fromNow)
  }

  // ---- Backoff ----

  datatype Config = Config(maxRetries: nat, timeout: real, initial: real, cap: real)

  predicate ValidConfig(c: Config) {
    c.timeout > 0.0 && c.initial > 0.0 && c.cap > 0.0
  }

  function Doubled(x: real, times: nat): real {
    if times == 0 then x else 2.0 * Doubled(x, times - 1)
  }

  function Exponential(c: Config, attempt: nat): real {
    var grown := Doubled(c.initial, if attempt < 30 then attempt else 30);
    if grown < c.cap then grown else c.cap
  }

  // The delay starts at the configured one, doubles from each of the first thirty attempts to the next, and
  // never grows beyond the cap.
  lemma ExponentialGrows(c: Config, attempt: nat)
    requires ValidConfig(c)
    ensures Exponential(c, 0) == if c.initial < c.cap then c.initial else c.cap
    ensures var delay, next := Exponential(c, attempt), Exponential(c, attempt + 1);
            next == if attempt >= 30 then delay else if 2.0 * delay < c.cap then 2.0 * delay else c.cap
  {
  }

  lemma {:induction false} DoubledPositive(x: real, times: nat)
    requires x > 0.0
    ensures Doubled(x, times) > 0.0
  {
    if times > 0 {
      DoubledPositive(x, times - 1);
    }
  }

  // ---- Traces ----

  datatype Step =
    | Sent(span: Span, usage: Option<nat>, raised: Option<Raised>)
    | Waited(span: Span)

  // The wait lies in the backoff interval of its attempt, or is as long as the provider asked if that is
  // more; it never exceeds the cap, and never falls short of what was asked.
  predicate FitsBackoff(c: Config, attempt: nat, raised: Raised, amount: real) {
    var exponential, asked := Exponential(c, attempt), RetryAfterSeconds(raised);
    && exponential / 2.0 <= amount <= c.cap
    && (asked.Some? ==> amount >= asked.value)
    && (amount <= exponential || asked == Some(amount))
  }

  function Least(a: real, b: real): real {
    if a < b then a else b
  }

  // A send is given the configured timeout, or the time left if that is less; a wait takes less than the
  // time left.
  predicate WithinDeadline(step: Step, c: Config, deadline: real) {
    && step.span.granted <= step.span.start <= step.span.finish
    && match step
       case Sent(span, _, _) =>
         && 0.0 < span.amount <= c.timeout && span.granted + span.amount <= deadline
         && (span.amount == c.timeout || span.granted + span.amount == deadline)
       case Waited(span) => span.granted + span.amount < deadline
  }

  // The span lasted as long as it was asked to.
  predicate Elapsed(span: Span) {
    span.start + span.amount <= span.finish
  }

  predicate Follows(c: Config, steps: seq<Step>, i: nat)
    requires i < |steps|
  {
    && (i > 0 ==> steps[i - 1].span.finish <= steps[i].span.granted)
    && if i % 2 == 0 then
         // A send: first of all, or after a wait that has elapsed.
         steps[i].Sent? && (i > 0 ==> steps[i - 1].Waited? && Elapsed(steps[i - 1].span))
       else
         // A wait: after a send that failed in a way worth retrying, and before the last attempt.
         && steps[i].Waited? && steps[i - 1].Sent? && steps[i - 1].raised.Some?
         && Transient(steps[i - 1].raised.value)
         && i / 2 < c.maxRetries
         && FitsBackoff(c, i / 2, steps[i - 1].raised.value, steps[i].span.amount)
  }

  // Sends and waits alternate, in the order of time, each as the rules above allow.
  ghost predicate Paced(c: Config, steps: seq<Step>, deadline: real) {
    forall i :: 0 <= i < |steps| ==> Follows(c, steps, i) && WithinDeadline(steps[i], c, deadline)
  }

  function Sends(steps: seq<Step>): nat {
    if steps == [] then 0 else Sends(steps[..|steps| - 1]) + if steps[|steps| - 1].Sent? then 1 else 0
  }

  // The measured usage of the sends, in order.
  function Measured(steps: seq<Step>): seq<nat> {
    if steps == [] then []
    else
      var earlier, last := Measured(steps[..|steps| - 1]), steps[|steps| - 1];
      if last.Sent? then earlier + AsSeq(last.usage) else earlier
  }

  lemma PacedNext(c: Config, steps: seq<Step>, deadline: real, next: Step)
    requires Paced(c, steps, deadline)
    requires Follows(c, steps + [next], |steps|) && WithinDeadline(next, c, deadline)
    ensures Paced(c, steps + [next], deadline)
    ensures Sends(steps + [next]) == Sends(steps) + if next.Sent? then 1 else 0
    ensures Measured(steps + [next]) == if next.Sent? then Measured(steps) + AsSeq(next.usage) else Measured(steps)
  {
    var longer := steps + [next];
    assert longer[..|steps|] == steps;
    forall i | 0 <= i < |longer| ensures Follows(c, longer, i) && WithinDeadline(longer[i], c, deadline) {
      if i < |steps| {
        assert Follows(c, steps, i);
      }
    }
  }

  // However the attempts went, there was one more than the waits at most, and no more than the retries allow.
  lemma {:induction false} SendsBounded(c: Config, steps: seq<Step>, deadline: real)
    requires Paced(c, steps, deadline)
    ensures Sends(steps) == (|steps| + 1) / 2
    ensures Sends(steps) <= c.maxRetries + 1
  {
    if steps != [] {
      var front, last := steps[..|steps| - 1], |steps| - 1;
      forall i | 0 <= i < |front| ensures Follows(c, front, i) && WithinDeadline(front[i], c, deadline) {
        assert Follows(c, steps, i);
      }
      SendsBounded(c, front, deadline);
      assert Follows(c, steps, last);
      if last % 2 == 0 && last > 0 {
        assert Follows(c, steps, last - 1);
      }
    }
  }

  // Between a send and the one before it, at least the delay that the provider asked for has passed, and at
  // least half of the exponential delay.
  lemma DelayRespected(c: Config, steps: seq<Step>, deadline: real, i: nat)
    requires Paced(c, steps, deadline) && 2 <= i < |steps| && steps[i].Sent?
    ensures steps[i - 2].Sent? && steps[i - 2].raised.Some?
    ensures var passed := steps[i].span.granted - steps[i - 2].span.finish;
            var asked := RetryAfterSeconds(steps[i - 2].raised.value);
            && passed >= Exponential(c, i / 2 - 1) / 2.0
            && (asked.Some? ==> passed >= asked.value)
  {
    hide Exponential, RetryAfterSeconds;
    assert Follows(c, steps, i);
    assert Follows(c, steps, i - 1);
    assert WithinDeadline(steps[i - 1], c, deadline);
    assert (i - 1) / 2 == i / 2 - 1;
  }

  // The header asks for this delay, in seconds or by a date so far ahead.
  predicate Asks(raised: Raised, delay: real) {
    raised.Status? && (raised.header == Seconds(delay) || raised.header == Date(delay))
  }

  // After a failure whose header asks for a delay, nothing follows if that is above the cap; otherwise the
  // wait that follows is at least as long, and the next send is at least that much later.
  lemma RequestedDelay(c: Config, steps: seq<Step>, deadline: real, i: nat, delay: real)
    requires Paced(c, steps, deadline) && i < |steps|
    requires steps[i].Sent? && steps[i].raised.Some? && Asks(steps[i].raised.value, delay)
    ensures delay > c.cap ==> i == |steps| - 1
    ensures i + 1 < |steps| ==> steps[i + 1].Waited? && delay <= steps[i + 1].span.amount <= c.cap
    ensures i + 2 < |steps| ==> steps[i + 2].Sent? && steps[i + 2].span.granted >= steps[i].span.finish + delay
  {
    hide Exponential;
    assert Follows(c, steps, i);
    if i + 1 < |steps| {
      assert Follows(c, steps, i + 1);
      assert WithinDeadline(steps[i + 1], c, deadline);
    }
    if i + 2 < |steps| {
      assert Follows(c, steps, i + 2);
    }
  }

  // A wait is in the upper half of the exponential delay, unless it is exactly the longer one asked for.
  lemma WaitBounds(c: Config, steps: seq<Step>, deadline: real, i: nat)
    requires ValidConfig(c) && Paced(c, steps, deadline) && i < |steps| && steps[i].Waited?
    ensures i > 0 && steps[i - 1].Sent? && steps[i - 1].raised.Some?
    ensures var wait, delay := steps[i].span.amount, Exponential(c, i / 2);
            && delay / 2.0 <= wait
            && (wait <= delay || Asks(steps[i - 1].raised.value, wait))
  {
    hide Doubled;
    DoubledPositive(c.initial, if i / 2 < 30 then i / 2 else 30);
    assert Follows(c, steps, i);
  }

  // How much later than the deadline a step ends is bounded by how late it started after the time left was
  // read, and by how far it overran what it asked for.
  predicate Honoured(span: Span) {
    span.finish <= span.start + span.amount
  }

  lemma EndsInTime(c: Config, steps: seq<Step>, deadline: real, lag: real)
    requires Paced(c, steps, deadline)
    requires forall i :: 0 <= i < |steps| ==>
               Honoured(steps[i].span) && steps[i].span.start - steps[i].span.granted <= lag
    ensures forall i :: 0 <= i < |steps| ==> steps[i].span.finish <= deadline + lag
  {
    forall i | 0 <= i < |steps| ensures steps[i].span.finish <= deadline + lag {
      assert WithinDeadline(steps[i], c, deadline);
    }
  }

  // ---- The loop ----

  // The longest wait that may be asked for after this failure.
  function LongestWait(c: Config, raised: Raised): real {
    match RetryAfterSeconds(raised)
    case None => c.cap
    case Some(asked) => if asked > c.cap then asked else c.cap
  }

  ghost predicate EndsWith(budget: OperationBudget, c: Config, steps: seq<Step>, raised: Raised, failure: Failure)
    reads budget, budget.world
  {
    if !Transient(raised) then failure == Classify(raised).failure
    else if failure == RetryAfterLimit then
      RetryAfterSeconds(raised).Some? && RetryAfterSeconds(raised).value > c.cap
    else
      || budget.Justified(failure, LongestWait(c, raised))
      || (failure == Classify(raised).failure && Sends(steps) == c.maxRetries + 1)
  }

  // The last send decides the outcome, unless the budget ends the operation first and has a reason to.
  ghost predicate Explains(budget: OperationBudget, c: Config, steps: seq<Step>, outcome: Result<(), Failure>)
    reads budget, budget.world
  {
    if steps != [] && steps[|steps| - 1].Sent? then
      match steps[|steps| - 1].raised
      case None => outcome.Ok? || (outcome.error == CallbackFailed && budget.hasCallback)
      case Some(raised) =>
        && outcome.Err?
        && ((outcome.error == CallbackFailed && budget.hasCallback)
            || EndsWith(budget, c, steps, raised, outcome.error))
    else outcome.Err? && budget.Justified(outcome.error, 0.0)
  }

  function FailureOf(code: int): Failure {
    if code == 429 then RateLimit else HttpStatus
  }

  // All attempts were used up, or the budget had a reason to end the operation.
  ghost predicate Exhausted(budget: OperationBudget, c: Config, steps: seq<Step>, outcome: Result<(), Failure>,
                            failure: Failure, room: real)
    reads budget, budget.world
  {
    && outcome.Err?
    && ((outcome.error == failure && Sends(steps) == c.maxRetries + 1) || budget.Justified(outcome.error, room))
  }

  // The same, or the provider asked for more than the cap.
  ghost predicate AskedTooMuch(budget: OperationBudget, c: Config, steps: seq<Step>, outcome: Result<(), Failure>,
                               failure: Failure, delay: real)
    reads budget, budget.world
  {
    if outcome == Err(RetryAfterLimit) then delay > c.cap
    else Exhausted(budget, c, steps, outcome, failure, if delay > c.cap then delay else c.cap)
  }

  // What a failed last send makes of the request, unless the usage callback failed: every failure that is
  // not worth another attempt has its own name.
  lemma FinalFailure(budget: OperationBudget, c: Config, steps: seq<Step>, outcome: Result<(), Failure>)
    requires ValidConfig(c) && Explains(budget, c, steps, outcome) && outcome != Err(CallbackFailed)
    requires steps != [] && steps[|steps| - 1].Sent? && steps[|steps| - 1].raised.Some?
    ensures match steps[|steps| - 1].raised.value
            case BadResponse => outcome == Err(InvalidResponse)
            case BadCredentials => outcome == Err(Auth)
            case BadInput => outcome == Err(BadRequest)
            case Provider(failure) => outcome == Err(failure)
            case Other => outcome == Err(Unexpected)
            case Interruption => outcome == Err(Interrupted)
            case Timeout => Exhausted(budget, c, steps, outcome, TimedOut, c.cap)
            case Disconnected => Exhausted(budget, c, steps, outcome, NotConnected, c.cap)
            case Status(code, header) =>
              if code == 401 || code == 403 then outcome == Err(Auth)
              else if code == 404 then outcome == Err(EndpointNotFound)
              else if code == 410 then outcome == Err(EndpointUnavailable)
              else if code != 429 && code < 500 then outcome == Err(HttpStatus)
              else
                match header
                case Seconds(delay) => AskedTooMuch(budget, c, steps, outcome, FailureOf(code), delay)
                case Date(delay) => AskedTooMuch(budget, c, steps, outcome, FailureOf(code), delay)
                case _ => Exhausted(budget, c, steps, outcome, FailureOf(code), c.cap)
  {
    hide Paced, Sends;
  }

  // One send: the call, the checks around the response's validation, and whatever any of them raises.
  method Attempt(budget: OperationBudget, timeout: real)
    returns (usage: Option<nat>, raised: Option<Raised>, ghost finish: real)
    requires budget.Reserved()
    modifies budget.world`now, budget.world`cancelled, budget.world`sends
    ensures budget.Settled() && budget.unavailable >= 1
    ensures budget.world.sends == old(budget.world.sends) + 1
    ensures old(budget.world.now) <= finish <= budget.world.now
    ensures raised.None? ==> budget.world.now < budget.deadline && !budget.world.cancelled
  {
    budget.world.sends := budget.world.sends + 1;
    budget.world.PassTime(budget.world.now);
    finish := budget.world.now;
    usage := None;
    raised := *;
    if raised.Some? {
      return;
    }
    usage := *;
    var left := budget.Remaining();
    if left.Err? {
      raised := Some(Provider(left.error));
      return;
    }
    budget.world.PassTime(budget.world.now);
    raised := *;
    if raised.Some? {
      return;
    }
    left := budget.Remaining();
    if left.Err? {
      raised := Some(Provider(left.error));
    }
  }

  // What the budget has counted since it stood at `attempts` and `reported` is what the steps show.
  ghost predicate Accounts(budget: OperationBudget, attempts: int, reported: seq<nat>, steps: seq<Step>)
    reads budget
  {
    budget.attempts == attempts + Sends(steps) && budget.reported == reported + Measured(steps)
  }

  ghost predicate Underway(budget: OperationBudget, c: Config, attempts: int, reported: seq<nat>, steps: seq<Step>)
    reads budget, budget.world
  {
    && budget.Settled()
    && Paced(c, steps, budget.deadline)
    && Accounts(budget, attempts, reported, steps)
    && (steps != [] ==> steps[|steps| - 1].span.finish <= budget.world.now)
  }

  // The last step, if there is one, is a wait that has elapsed.
  predicate WaitOver(steps: seq<Step>) {
    steps != [] ==> steps[|steps| - 1].Waited? && Elapsed(steps[|steps| - 1].span)
  }

  lemma SentNext(c: Config, steps: seq<Step>, deadline: real, sent: Step)
    requires Paced(c, steps, deadline) && |steps| % 2 == 0 && sent.Sent? && WithinDeadline(sent, c, deadline)
    requires WaitOver(steps) && (steps != [] ==> steps[|steps| - 1].span.finish <= sent.span.granted)
    ensures Paced(c, steps + [sent], deadline) && Sends(steps + [sent]) == Sends(steps) + 1
    ensures Measured(steps + [sent]) == Measured(steps) + AsSeq(sent.usage)
  {
    hide Paced, Sends, Measured;
    PacedNext(c, steps, deadline, sent);
  }

  // Reserve, send, and record the usage whether or not the send succeeded.
  method SendOnce(budget: OperationBudget, c: Config, ghost attempts: int, ghost reported: seq<nat>,
                  ghost steps: seq<Step>)
    returns (outcome: Result<Option<Raised>, Failure>, ghost after: seq<Step>)
    requires ValidConfig(c) && Underway(budget, c, attempts, reported, steps)
    requires |steps| % 2 == 0 && WaitOver(steps)
    modifies budget, budget.world
    ensures Underway(budget, c, attempts, reported, after)
    ensures after == steps || (|after| == |steps| + 1 && after[..|steps|] == steps && after[|steps|].Sent?)
    ensures outcome.Err? ==>
              budget.Justified(outcome.error, 0.0) && (after != steps ==> outcome.error == CallbackFailed)
    ensures outcome.Ok? ==> after != steps && outcome.value == after[|steps|].raised
  {
    hide Paced, Sends, Measured, Follows;
    var left := budget.ReserveProviderCall();
    if left.Err? {
      return Err(left.error), steps;
    }
    var timeout := Least(c.timeout, left.value);
    ghost var granted := budget.world.now;
    budget.world.PassTime(budget.world.now);
    ghost var start := budget.world.now;
    var usage, raised, finish := Attempt(budget, timeout);
    ghost var sent := Sent(Span(granted, start, timeout, finish), usage, raised);
    SentNext(c, steps, budget.deadline, sent);
    after := steps + [sent];
    var recorded := budget.RecordProviderUsage(usage);
    outcome := if recorded then Ok(raised) else Err(CallbackFailed);
  }

  lemma WaitedNext(c: Config, steps: seq<Step>, deadline: real, waited: Step, attempt: nat)
    requires Paced(c, steps, deadline) && |steps| == 2 * attempt + 1 && attempt < c.maxRetries
    requires waited.Waited? && WithinDeadline(waited, c, deadline)
    requires steps[|steps| - 1].Sent? && steps[|steps| - 1].span.finish <= waited.span.granted
    requires steps[|steps| - 1].raised.Some? && Transient(steps[|steps| - 1].raised.value)
    requires FitsBackoff(c, attempt, steps[|steps| - 1].raised.value, waited.span.amount)
    ensures Paced(c, steps + [waited], deadline) && Sends(steps + [waited]) == Sends(steps)
    ensures Measured(steps + [waited]) == Measured(steps)
  {
    hide Paced, Sends, Measured, FitsBackoff;
    PacedNext(c, steps, deadline, waited);
  }

  // random.uniform over the upper half of the exponential delay.
  method Jittered(c: Config, attempt: nat) returns (delay: real)
    requires ValidConfig(c)
    ensures Exponential(c, attempt) / 2.0 <= delay <= Exponential(c, attempt) <= c.cap
  {
    DoubledPositive(c.initial, if attempt < 30 then attempt else 30);
    var exponential := Exponential(c, attempt);
    delay := *;
    if delay < exponential / 2.0 {
      delay := exponential / 2.0;
    }
    if delay > exponential {
      delay := exponential;
    }
  }

  // A delay above the cap is never waited for: the deadline's failure is reported if it would not fit.
  method RefuseDelay(budget: OperationBudget, asked: real) returns (stop: Option<Failure>)
    modifies budget.world`now, budget.world`cancelled
    ensures stop.Some? && budget.world.now >= old(budget.world.now)
    ensures stop == Some(RetryAfterLimit) || budget.Justified(stop.value, if asked < 0.0 then 0.0 else asked)
  {
    var left := budget.Remaining();
    if left.Err? {
      return Some(left.error);
    }
    if asked >= left.value {
      var outcome, waited := budget.Wait(asked);
      return Some(outcome.error);
    }
    return Some(RetryAfterLimit);
  }

  // After a failed send: give up, or wait before the next one.
  method Pace(budget: OperationBudget, c: Config, attempt: nat, raised: Raised,
              ghost attempts: int, ghost reported: seq<nat>, ghost steps: seq<Step>)
    returns (stop: Option<Failure>, ghost after: seq<Step>)
    requires ValidConfig(c) && Underway(budget, c, attempts, reported, steps)
    requires |steps| == 2 * attempt + 1 && attempt <= c.maxRetries
    requires steps[|steps| - 1].Sent? && steps[|steps| - 1].raised == Some(raised)
    modifies budget.world`now, budget.world`cancelled
    ensures Underway(budget, c, attempts, reported, after)
    ensures stop.None? ==> attempt < c.maxRetries && |after| == |steps| + 1 && WaitOver(after)
    ensures stop.Some? ==> Explains(budget, c, after, Err(stop.value))
  {
    hide Paced, Measured, Follows, Sends, Exponential;
    after := steps;
    OnlyTransientGoesOn(raised);
    var verdict := Classify(raised);
    if verdict.GiveUp? {
      return Some(verdict.failure), steps;
    }
    var left := budget.Remaining();
    if left.Err? {
      return Some(left.error), steps;
    }
    if attempt >= c.maxRetries {
      SendsBounded(c, steps, budget.deadline);
      return Some(verdict.failure), steps;
    }
    var asked := RetryAfterSeconds(raised);
    var delay := Jittered(c, attempt);
    if asked.Some? {
      if asked.value > c.cap {
        stop := RefuseDelay(budget, asked.value);
        return stop, steps;
      }
      if delay < asked.value {
        delay := asked.value;
      }
    }
    assert FitsBackoff(c, attempt, raised, delay);
    var outcome, waited := budget.Wait(delay);
    if waited.Some? {
      WaitedNext(c, steps, budget.deadline, Waited(waited.value), attempt);
      after := steps + [Waited(waited.value)];
    }
    stop := if outcome.Err? then Some(outcome.error) else None;
  }

  lemma Nothing(c: Config, deadline: real)
    ensures Paced(c, [], deadline) && Sends([]) == 0 && Measured([]) == []
  {
  }

  // Whatever the replies, the clock, the callback and the cancellation do.
  method RequestWithRetry(budget: OperationBudget, c: Config)
    returns (outcome: Result<(), Failure>, ghost steps: seq<Step>)
    requires ValidConfig(c) && budget.Settled()
    modifies budget, budget.world
    ensures budget.Settled()
    ensures Paced(c, steps, budget.deadline)
    ensures Accounts(budget, old(budget.attempts), old(budget.reported), steps)
    ensures Explains(budget, c, steps, outcome)
    ensures Sends(steps) <= c.maxRetries + 1
    ensures budget.maxCalls.Some? ==> old(budget.attempts) + Sends(steps) <= budget.maxCalls.value
  {
    hide Paced, Measured, Sends, Follows, EndsWith;
    ghost var attempts, reported := budget.attempts, budget.reported;
    var attempt := 0;
    steps := [];
    Nothing(c, budget.deadline);
    while true
      invariant attempt <= c.maxRetries && |steps| == 2 * attempt
      invariant WaitOver(steps)
      invariant Underway(budget, c, attempts, reported, steps)
      decreases c.maxRetries - attempt
    {
      var raised: Result<Option<Raised>, Failure>;
      raised, steps := SendOnce(budget, c, attempts, reported, steps);
      if raised.Err? || raised.value.None? {
        outcome := if raised.Err? then Err(raised.error) else Ok(());
        break;
      }
      var stop: Option<Failure>;
      stop, steps := Pace(budget, c, attempt, raised.value.value, attempts, reported, steps);
      if stop.Some? {
        outcome := Err(stop.value);
        break;
      }
      attempt := attempt + 1;
    }
    SendsBounded(c, steps, budget.deadline);
  }
}
