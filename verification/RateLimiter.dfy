/** The sliding-window limiter of src/policynim/interfaces/mcp.py, against a plain log of its calls. */
module RateLimiter {
  import opened Results
  import opened Seqs

  datatype Request = Request(key: string, time: real, allowed: bool)

  // ---- The log ----

  ghost predicate InOrder(log: seq<Request>) {
    forall i, j :: 0 <= i < j < |log| ==> log[i].time <= log[j].time
  }

  ghost predicate NotBefore(log: seq<Request>, now: real) {
    forall i :: 0 <= i < |log| ==> log[i].time <= now
  }

  // The times at which the key was let through, oldest first.
  ghost function Accepted(log: seq<Request>, key: string): seq<real> {
    if log == [] then []
    else
      var earlier, last := Accepted(log[..|log| - 1], key), log[|log| - 1];
      if last.allowed && last.key == key then earlier + [last.time] else earlier
  }

  predicate IsLive(time: real, now: real, window: int) {
    now - time < window as real
  }

  function Live(times: seq<real>, now: real, window: int): seq<real> {
    if times == [] then []
    else
      var earlier, last := Live(times[..|times| - 1], now, window), times[|times| - 1];
      if IsLive(last, now, window) then earlier + [last] else earlier
  }

  ghost predicate JudgedCall(log: seq<Request>, i: nat, limit: nat, window: int)
    requires i < |log|
  {
    log[i].allowed <==> |Live(Accepted(log[..i], log[i].key), log[i].time, window)| < limit
  }

  // Every call was answered by counting the accepted calls for its key that were younger than the window.
  ghost predicate Judged(log: seq<Request>, limit: nat, window: int) {
    forall i :: 0 <= i < |log| ==> JudgedCall(log, i, limit, window)
  }

  // ---- Nondecreasing times ----

  ghost predicate Nondecreasing(times: seq<real>) {
    forall i, j :: 0 <= i < j < |times| ==> times[i] <= times[j]
  }

  ghost predicate UpTo(times: seq<real>, now: real) {
    forall i :: 0 <= i < |times| ==> times[i] <= now
  }

  lemma {:induction false} AcceptedSorted(log: seq<Request>, key: string, now: real)
    requires InOrder(log) && NotBefore(log, now)
    ensures Nondecreasing(Accepted(log, key)) && UpTo(Accepted(log, key), now)
  {
    if log != [] {
      var front, last := log[..|log| - 1], log[|log| - 1];
      AcceptedSorted(front, key, last.time);
    }
  }

  lemma AcceptedAppend(log: seq<Request>, call: Request, key: string)
    ensures Accepted(log + [call], key)
         == if call.allowed && call.key == key then Accepted(log, key) + [call.time] else Accepted(log, key)
  {
    assert (log + [call])[..|log|] == log;
  }

  // `kept` is a suffix of `all`, and everything cut off has left the window.
  ghost predicate TailOf(kept: seq<real>, all: seq<real>, now: real, window: int) {
    var cut := |all| - |kept|;
    && 0 <= cut
    && kept == all[cut..]
    && forall i :: 0 <= i < cut ==> !IsLive(all[i], now, window)
  }

  // What is live of a sorted list is what remains after cutting off its expired front.
  lemma {:induction false} LiveTrims(times: seq<real>, now: real, window: int)
    requires Nondecreasing(times)
    ensures TailOf(Live(times, now, window), times, now, window)
    ensures forall i :: |times| - |Live(times, now, window)| <= i < |times| ==> IsLive(times[i], now, window)
  {
    if times != [] {
      var front, last := times[..|times| - 1], times[|times| - 1];
      LiveTrims(front, now, window);
      var earlier := Live(front, now, window);
      if !IsLive(last, now, window) {
        assert earlier == [];
      } else {
        assert times == front + [last];
      }
    }
  }

  lemma OneLiveSuffix(a: seq<real>, b: seq<real>, all: seq<real>, now: real, window: int)
    requires TailOf(a, all, now, window) && TailOf(b, all, now, window)
    requires forall i :: 0 <= i < |a| ==> IsLive(a[i], now, window)
    requires forall i :: 0 <= i < |b| ==> IsLive(b[i], now, window)
    ensures a == b
  {
    assert b != [] ==> b[0] == all[|all| - |b|];
    assert a != [] ==> a[0] == all[|all| - |a|];
  }

  // Trimming loses nothing that is live.
  lemma TrimmedLive(kept: seq<real>, all: seq<real>, now: real, window: int)
    requires Nondecreasing(all) && TailOf(kept, all, now, window)
    ensures Live(kept, now, window) == Live(all, now, window)
  {
    hide Live;
    LiveTrims(all, now, window);
    LiveTrims(kept, now, window);
    var live, cut := Live(kept, now, window), |all| - |kept|;
    assert TailOf(live, all, now, window) by {
      forall i | 0 <= i < |all| - |live| ensures !IsLive(all[i], now, window) {
        if i >= cut {
          assert all[i] == kept[i - cut];
        }
      }
    }
    OneLiveSuffix(live, Live(all, now, window), all, now, window);
  }

  // ---- No window is overfull ----

  // Of any limit + 1 successive acceptances, the last is at least a window younger than the first.
  lemma {:induction false} AcceptancesSpread(log: seq<Request>, key: string, limit: nat, window: int, i: nat, j: nat)
    requires limit >= 1 && InOrder(log) && Judged(log, limit, window)
    requires i + limit <= j < |Accepted(log, key)|
    ensures Accepted(log, key)[j] - Accepted(log, key)[i] >= window as real
  {
    var front, last := log[..|log| - 1], log[|log| - 1];
    var earlier := Accepted(front, key);
    assert Judged(front, limit, window) by {
      forall k | 0 <= k < |front| ensures JudgedCall(front, k, limit, window) {
        assert front[..k] == log[..k];
        assert JudgedCall(log, k, limit, window);
      }
    }
    if j < |earlier| {
      AcceptancesSpread(front, key, limit, window, i, j);
    } else {
      assert JudgedCall(log, |log| - 1, limit, window);
      AcceptedSorted(front, key, last.time);
      LiveTrims(earlier, last.time, window);
    }
  }

  function InWindow(times: seq<real>, after: real, until: real): seq<real> {
    if times == [] then []
    else
      var earlier, last := InWindow(times[..|times| - 1], after, until), times[|times| - 1];
      if after < last <= until then earlier + [last] else earlier
  }

  lemma {:induction false} WithinSpan(times: seq<real>, after: real, until: real) returns (first: nat, last: nat)
    requires Nondecreasing(times) && InWindow(times, after, until) != []
    ensures first <= last < |times| && last - first + 1 >= |InWindow(times, after, until)|
    ensures after < times[first] && times[last] <= until
  {
    var front, end := times[..|times| - 1], times[|times| - 1];
    if InWindow(front, after, until) == [] {
      first, last := |times| - 1, |times| - 1;
    } else {
      first, last := WithinSpan(front, after, until);
      if after < end <= until {
        last := |times| - 1;
      }
    }
  }

  // No span of time shorter than the window, or as long and open at one end, holds more acceptances of a
  // key than the limit, wherever it is placed.
  lemma WindowNeverOverfull(log: seq<Request>, key: string, limit: nat, window: int, after: real, until: real)
    requires limit >= 1 && InOrder(log) && Judged(log, limit, window)
    requires until - after <= window as real
    ensures |InWindow(Accepted(log, key), after, until)| <= limit
  {
    var times := Accepted(log, key);
    if |InWindow(times, after, until)| > limit {
      var now := if log == [] then 0.0 else log[|log| - 1].time;
      AcceptedSorted(log, key, now);
      var first, last := WithinSpan(times, after, until);
      AcceptancesSpread(log, key, limit, window, first, last);
    }
  }

  // ---- Counting the log itself ----

  // The accepted calls for the key that are younger than the window.
  ghost function LiveCalls(log: seq<Request>, key: string, now: real, window: int): set<nat> {
    set i: nat | i < |log| && log[i].allowed && log[i].key == key && now - log[i].time < window as real
  }

  // The accepted calls for the key after one time and up to another.
  ghost function CallsBetween(log: seq<Request>, key: string, after: real, until: real): set<nat> {
    set i: nat | i < |log| && log[i].allowed && log[i].key == key && after < log[i].time <= until
  }

  lemma LiveCallsLast(log: seq<Request>, key: string, now: real, window: int)
    requires log != []
    ensures var n, last := |log| - 1, log[|log| - 1];
            LiveCalls(log, key, now, window) ==
              LiveCalls(log[..n], key, now, window)
              + if last.allowed && last.key == key && now - last.time < window as real then {n} else {}
    ensures |log| - 1 !in LiveCalls(log[..|log| - 1], key, now, window)
  {
  }

  lemma LiveAppend(times: seq<real>, time: real, now: real, window: int)
    ensures |Live(times + [time], now, window)| ==
              |Live(times, now, window)| + if now - time < window as real then 1 else 0
  {
    assert (times + [time])[..|times|] == times;
  }

  lemma NoneLive(key: string, now: real, window: int)
    ensures |Live(Accepted([], key), now, window)| == |LiveCalls([], key, now, window)| == 0
  {
  }

  lemma {:induction false} LiveCounted(log: seq<Request>, key: string, now: real, window: int)
    ensures |Live(Accepted(log, key), now, window)| == |LiveCalls(log, key, now, window)|
  {
    hide LiveCalls, Live;
    if log != [] {
      var n := |log| - 1;
      LiveCounted(log[..n], key, now, window);
      LiveCallsLast(log, key, now, window);
      LiveAppend(Accepted(log[..n], key), log[n].time, now, window);
    } else {
      NoneLive(key, now, window);
    }
  }

  lemma BetweenLast(log: seq<Request>, key: string, after: real, until: real)
    requires log != []
    ensures var n, last := |log| - 1, log[|log| - 1];
            CallsBetween(log, key, after, until) ==
              CallsBetween(log[..n], key, after, until)
              + if last.allowed && last.key == key && after < last.time <= until then {n} else {}
    ensures |log| - 1 !in CallsBetween(log[..|log| - 1], key, after, until)
  {
  }

  lemma BetweenAppend(times: seq<real>, time: real, after: real, until: real)
    ensures |InWindow(times + [time], after, until)| ==
              |InWindow(times, after, until)| + if after < time <= until then 1 else 0
  {
    assert (times + [time])[..|times|] == times;
  }

  lemma NoneBetween(key: string, after: real, until: real)
    ensures |InWindow(Accepted([], key), after, until)| == |CallsBetween([], key, after, until)| == 0
  {
  }

  lemma {:induction false} BetweenCounted(log: seq<Request>, key: string, after: real, until: real)
    ensures |InWindow(Accepted(log, key), after, until)| == |CallsBetween(log, key, after, until)|
  {
    hide CallsBetween, InWindow;
    if log != [] {
      var n := |log| - 1;
      BetweenCounted(log[..n], key, after, until);
      BetweenLast(log, key, after, until);
      BetweenAppend(Accepted(log[..n], key), log[n].time, after, until);
    } else {
      NoneBetween(key, after, until);
    }
  }

  // ---- The index ----

  function Stored(attempts: map<string, seq<real>>, key: string): seq<real> {
    if key in attempts then attempts[key] else []
  }

  ghost predicate Listed(order: seq<string>, attempts: map<string, seq<real>>) {
    && NoDup(order)
    && (forall k :: k in order <==> k in attempts)
    && forall k :: k in attempts ==> attempts[k] != []
  }

  function Last(times: seq<real>): real
    requires times != []
  {
    times[|times| - 1]
  }

  // Keys come in the order of their last accepted attempts.
  ghost predicate ByLastAttempt(order: seq<string>, attempts: map<string, seq<real>>)
    requires Listed(order, attempts)
  {
    forall i, j :: 0 <= i < j < |order| ==> Last(attempts[order[i]]) <= Last(attempts[order[j]])
  }

  // The stored lists say all that still matters of the log at the time `now`.
  ghost predicate Tracks(order: seq<string>, attempts: map<string, seq<real>>, log: seq<Request>, now: real,
                         limit: nat, window: int) {
    && Listed(order, attempts)
    && ByLastAttempt(order, attempts)
    && (forall k :: k in attempts ==> |attempts[k]| <= limit)
    && forall k :: TailOf(Stored(attempts, k), Accepted(log, k), now, window)
  }

  lemma TracksLater(order: seq<string>, attempts: map<string, seq<real>>, log: seq<Request>, then_: real, now: real,
                    limit: nat, window: int)
    requires Tracks(order, attempts, log, then_, limit, window) && then_ <= now
    ensures Tracks(order, attempts, log, now, limit, window)
  {
    forall k ensures TailOf(Stored(attempts, k), Accepted(log, k), now, window) {
      assert TailOf(Stored(attempts, k), Accepted(log, k), then_, window);
    }
  }

  lemma DropListed(order: seq<string>, attempts: map<string, seq<real>>)
    requires Listed(order, attempts) && order != []
    ensures Listed(order[1..], attempts - {order[0]})
  {
    var oldest, rest := order[0], order[1..];
    assert NoDup(rest) && oldest !in rest;
    forall k ensures k in rest <==> k in attempts - {oldest} {
      assert order == [oldest] + rest;
      assert k in order <==> k in attempts;
    }
  }

  lemma DropOrdered(order: seq<string>, attempts: map<string, seq<real>>)
    requires Listed(order, attempts) && ByLastAttempt(order, attempts) && order != []
    requires Listed(order[1..], attempts - {order[0]})
    ensures ByLastAttempt(order[1..], attempts - {order[0]})
  {
    hide NoDup;
    var rest, fewer := order[1..], attempts - {order[0]};
    forall i | 0 <= i < |rest| ensures rest[i] in fewer && fewer[rest[i]] == attempts[order[i + 1]] {
      assert rest[i] in rest;
    }
  }

  // Dropping the key that comes first loses nothing when its last attempt has expired.
  lemma TracksDrop(order: seq<string>, attempts: map<string, seq<real>>, log: seq<Request>, now: real,
                   limit: nat, window: int)
    requires Tracks(order, attempts, log, now, limit, window) && InOrder(log) && NotBefore(log, now)
    requires order != [] && !IsLive(Last(attempts[order[0]]), now, window)
    ensures Tracks(order[1..], attempts - {order[0]}, log, now, limit, window)
  {
    hide Accepted, ByLastAttempt, NoDup;
    var oldest, fewer := order[0], attempts - {order[0]};
    assert oldest in order;
    DropListed(order, attempts);
    DropOrdered(order, attempts);
    forall k ensures TailOf(Stored(fewer, k), Accepted(log, k), now, window) {
      var kept, all := Stored(attempts, k), Accepted(log, k);
      assert TailOf(kept, all, now, window);
      if k == oldest {
        AcceptedSorted(log, k, now);
        assert kept[|kept| - 1] == all[|all| - 1];
      }
    }
  }

  // Once the first key is live, every key is, and a key with a live attempt is there.
  lemma CleanKeys(order: seq<string>, attempts: map<string, seq<real>>, log: seq<Request>, now: real,
                  limit: nat, window: int, key: string)
    requires Tracks(order, attempts, log, now, limit, window) && InOrder(log) && NotBefore(log, now)
    requires order != [] ==>
               && order[0] in attempts && attempts[order[0]] != []
               && IsLive(Last(attempts[order[0]]), now, window)
    ensures key in attempts <==> Live(Accepted(log, key), now, window) != []
  {
    hide Accepted;
    var kept, all := Stored(attempts, key), Accepted(log, key);
    AcceptedSorted(log, key, now);
    assert TailOf(kept, all, now, window);
    LiveTrims(all, now, window);
    if key in attempts {
      var i :| 0 <= i < |order| && order[i] == key;
      assert Last(attempts[order[0]]) <= Last(attempts[key]);
      assert kept[|kept| - 1] == all[|all| - 1];
    }
  }

  function Put(order: seq<string>, attempts: map<string, seq<real>>, key: string): seq<string> {
    if key in attempts then order else order + [key]
  }

  // Moving a key to the end, as OrderedDict.move_to_end does.
  function ToEnd(order: seq<string>, key: string): seq<string> {
    Keep(order, set k | k in order && k != key) + [key]
  }

  lemma {:induction false} KeepOrdered(order: seq<string>, which: set<string>, attempts: map<string, seq<real>>)
    requires forall k :: k in order ==> k in attempts && attempts[k] != []
    requires forall i, j :: 0 <= i < j < |order| ==> Last(attempts[order[i]]) <= Last(attempts[order[j]])
    ensures forall k :: k in Keep(order, which) ==> k in order
    ensures forall i, j :: 0 <= i < j < |Keep(order, which)| ==>
              Last(attempts[Keep(order, which)[i]]) <= Last(attempts[Keep(order, which)[j]])
  {
    forall k ensures k in Keep(order, which) ==> k in order {
      KeepMember(order, which, k);
    }
    if order != [] {
      var front, last := order[..|order| - 1], order[|order| - 1];
      KeepOrdered(front, which, attempts);
      var fewer := Keep(front, which);
      forall i | 0 <= i < |fewer| ensures Last(attempts[fewer[i]]) <= Last(attempts[last]) {
        assert fewer[i] in front;
        var k :| 0 <= k < |front| && front[k] == fewer[i];
        assert order[k] == fewer[i];
      }
    }
  }

  // ---- One call ----

  lemma ToEndOfPut(order: seq<string>, attempts: map<string, seq<real>>, key: string)
    requires forall k :: k in order <==> k in attempts
    ensures ToEnd(Put(order, attempts, key), key) == Keep(order, set k | k in order && k != key) + [key]
  {
    if key !in attempts {
      var put := order + [key];
      assert (set k | k in put && k != key) == (set k | k in order && k != key);
      assert put[..|order|] == order;
    }
  }

  lemma NoDupOne(key: string)
    ensures NoDup([key])
  {
  }

  lemma ListedPut(order: seq<string>, attempts: map<string, seq<real>>, key: string, times: seq<real>)
    requires Listed(order, attempts) && times != []
    ensures Listed(ToEnd(Put(order, attempts, key), key), attempts[key := times])
  {
    hide NoDup, Keep, Put, ToEnd;
    var others := set k | k in order && k != key;
    KeepNoDup(order, others);
    forall k ensures k in Keep(order, others) <==> k in order && k != key {
      KeepMember(order, others, k);
    }
    ToEndOfPut(order, attempts, key);
    NoDupOne(key);
    NoDupConcat(Keep(order, others), [key]);
  }

  lemma OrderedPut(order: seq<string>, attempts: map<string, seq<real>>, key: string, times: seq<real>)
    requires Listed(order, attempts) && ByLastAttempt(order, attempts) && times != []
    requires forall k :: k in attempts ==> Last(attempts[k]) <= Last(times)
    requires Listed(ToEnd(Put(order, attempts, key), key), attempts[key := times])
    ensures ByLastAttempt(ToEnd(Put(order, attempts, key), key), attempts[key := times])
  {
    hide NoDup, Last;
    var others := set k | k in order && k != key;
    KeepOrdered(order, others, attempts);
    ToEndOfPut(order, attempts, key);
    var kept, now := Keep(order, others), attempts[key := times];
    forall i | 0 <= i < |kept| ensures kept[i] in attempts && now[kept[i]] == attempts[kept[i]] {
      KeepMember(order, others, kept[i]);
    }
  }

  // What is stored for any key after a call still says all that matters of its accepted calls.
  lemma TrimmedAfter(attempts: map<string, seq<real>>, log: seq<Request>, call: Request, window: int, key: string)
    requires InOrder(log) && NotBefore(log, call.time)
    requires TailOf(Stored(attempts, key), Accepted(log, key), call.time, window)
    ensures var live := Live(Stored(attempts, call.key), call.time, window);
            var times := if call.allowed then live + [call.time] else live;
            TailOf(Stored(attempts[call.key := times], key), Accepted(log + [call], key), call.time, window)
  {
    hide Accepted, Live;
    AcceptedAppend(log, call, key);
    if key == call.key {
      var all := Accepted(log, key);
      AcceptedSorted(log, key, call.time);
      TrimmedLive(Stored(attempts, key), all, call.time, window);
      LiveTrims(all, call.time, window);
    }
  }

  lemma LastNotAfter(order: seq<string>, attempts: map<string, seq<real>>, log: seq<Request>, now: real,
                     limit: nat, window: int, key: string)
    requires Tracks(order, attempts, log, now, limit, window) && InOrder(log) && NotBefore(log, now)
    requires key in attempts
    ensures attempts[key] != [] && Accepted(log, key) != []
    ensures Last(attempts[key]) == Last(Accepted(log, key)) <= now
  {
    hide Accepted, ByLastAttempt;
    var all := Accepted(log, key);
    assert TailOf(Stored(attempts, key), all, now, window);
    AcceptedSorted(log, key, now);
  }

  // An accepted attempt is stored behind the live ones, and its key goes to the end.
  lemma TracksAccept(order: seq<string>, attempts: map<string, seq<real>>, log: seq<Request>, now: real,
                     limit: nat, window: int, key: string)
    requires Tracks(order, attempts, log, now, limit, window) && InOrder(log) && NotBefore(log, now)
    requires |Live(Stored(attempts, key), now, window)| < limit
    ensures var times := Live(Stored(attempts, key), now, window) + [now];
            Tracks(ToEnd(Put(order, attempts, key), key), attempts[key := times], log + [Request(key, now, true)],
                   now, limit, window)
  {
    hide Accepted, Listed, ByLastAttempt, Live, ToEnd, Put, TailOf, InOrder, NotBefore;
    var times := Live(Stored(attempts, key), now, window) + [now];
    var after, call := attempts[key := times], Request(key, now, true);
    ListedPut(order, attempts, key, times);
    forall k | k in attempts ensures attempts[k] != [] && Last(attempts[k]) <= now {
      LastNotAfter(order, attempts, log, now, limit, window, k);
    }
    OrderedPut(order, attempts, key, times);
    forall k ensures TailOf(Stored(after, k), Accepted(log + [call], k), now, window) {
      TrimmedAfter(attempts, log, call, window, k);
    }
  }

  // Cutting the expired front off a list that keeps something does not move its key.
  lemma OrderedTrim(order: seq<string>, attempts: map<string, seq<real>>, key: string, times: seq<real>)
    requires Listed(order, attempts) && ByLastAttempt(order, attempts)
    requires key in attempts && times != [] && Last(times) == Last(attempts[key])
    ensures Listed(order, attempts[key := times]) && ByLastAttempt(order, attempts[key := times])
  {
    hide NoDup, Last;
    assert forall k :: k in attempts ==> Last(attempts[key := times][k]) == Last(attempts[k]);
  }

  lemma LiveOfStored(order: seq<string>, attempts: map<string, seq<real>>, log: seq<Request>, now: real,
                     limit: nat, window: int, key: string)
    requires Tracks(order, attempts, log, now, limit, window) && InOrder(log) && NotBefore(log, now)
    requires Live(Stored(attempts, key), now, window) != []
    ensures var times := Live(Stored(attempts, key), now, window);
            key in attempts && |times| <= |attempts[key]| && Last(times) == Last(attempts[key])
  {
    hide Accepted, ByLastAttempt, NoDup;
    var kept := Stored(attempts, key);
    AcceptedSorted(log, key, now);
    assert TailOf(kept, Accepted(log, key), now, window);
    LiveTrims(kept, now, window);
  }

  // A refused attempt leaves every key where it was and loses only expired times.
  lemma TracksRefuse(order: seq<string>, attempts: map<string, seq<real>>, log: seq<Request>, now: real,
                     limit: nat, window: int, key: string)
    requires Tracks(order, attempts, log, now, limit, window) && InOrder(log) && NotBefore(log, now)
    requires |Live(Stored(attempts, key), now, window)| >= limit >= 1
    ensures var times := Live(Stored(attempts, key), now, window);
            && key in attempts && Put(order, attempts, key) == order
            && Tracks(order, attempts[key := times], log + [Request(key, now, false)], now, limit, window)
  {
    hide Accepted, Listed, ByLastAttempt, Live, TailOf, InOrder, NotBefore, Last, Stored;
    var times := Live(Stored(attempts, key), now, window);
    var after, call := attempts[key := times], Request(key, now, false);
    LiveOfStored(order, attempts, log, now, limit, window, key);
    OrderedTrim(order, attempts, key, times);
    forall k ensures TailOf(Stored(after, k), Accepted(log + [call], k), now, window) {
      TrimmedAfter(attempts, log, call, window, k);
    }
  }

  // Answering by the stored list is answering by the log.
  lemma JudgedByIndex(order: seq<string>, attempts: map<string, seq<real>>, log: seq<Request>, now: real,
                      limit: nat, window: int, key: string)
    requires Tracks(order, attempts, log, now, limit, window) && InOrder(log) && NotBefore(log, now)
    ensures Live(Stored(attempts, key), now, window) == Live(Accepted(log, key), now, window)
  {
    hide Accepted, Live, ByLastAttempt, Listed;
    AcceptedSorted(log, key, now);
    assert TailOf(Stored(attempts, key), Accepted(log, key), now, window);
    TrimmedLive(Stored(attempts, key), Accepted(log, key), now, window);
  }

  lemma JudgedAppend(log: seq<Request>, call: Request, limit: nat, window: int)
    requires Judged(log, limit, window)
    requires call.allowed <==> |Live(Accepted(log, call.key), call.time, window)| < limit
    ensures Judged(log + [call], limit, window)
  {
    hide Live, Accepted;
    var longer := log + [call];
    forall i | 0 <= i < |longer| ensures JudgedCall(longer, i, limit, window) {
      if i < |log| {
        assert longer[..i] == log[..i] && JudgedCall(log, i, limit, window);
      } else {
        assert longer[..i] == log;
      }
    }
  }

  // After cleanup and an answer, the keys kept are those with a live attempt.
  lemma KeysAfter(attempts: map<string, seq<real>>, log: seq<Request>, call: Request, window: int)
    requires forall k :: k in attempts <==> Live(Accepted(log, k), call.time, window) != []
    requires !call.allowed ==> call.key in attempts
    ensures window > 0 ==>
              forall k :: k in attempts.Keys + {call.key} <==> Live(Accepted(log + [call], k), call.time, window) != []
  {
    if window > 0 {
      forall k ensures k in attempts.Keys + {call.key} <==> Live(Accepted(log + [call], k), call.time, window) != [] {
        AcceptedAppend(log, call, k);
        var all := Accepted(log, k);
        assert (all + [call.time])[..|all|] == all;
      }
    }
  }

  lemma FirstStored(order: seq<string>, attempts: map<string, seq<real>>, log: seq<Request>, now: real,
                    limit: nat, window: int)
    requires Tracks(order, attempts, log, now, limit, window) && order != []
    ensures order[0] in attempts && attempts[order[0]] != []
  {
    assert order[0] in order;
  }

  // Of a stored list that is empty, the source would read the last attempt: that is an error there.
  datatype AllowError = NoLastAttempt

  // A limiter that allows nothing answers one call, and keeps an empty list for its key.
  ghost predicate Stuck(order: seq<string>, attempts: map<string, seq<real>>, log: seq<Request>) {
    if log == [] then order == [] && attempts == map[]
    else |log| == 1 && !log[0].allowed && order == [log[0].key] && attempts == map[log[0].key := []]
  }

  lemma NothingLogged(now: real, limit: int, window: int)
    ensures InOrder([]) && NotBefore([], now)
    ensures limit >= 1 ==> Judged([], limit, window) && Tracks([], map[], [], now, limit, window)
  {
    hide Live;
  }

  class InMemoryRateLimiter {
    const maxAttempts: int
    const windowSeconds: int
    var order: seq<string>
    var attempts: map<string, seq<real>>
    // The calls answered since the last reset, and the time of the last one made.
    ghost var log: seq<Request>
    ghost var clock: real

    ghost predicate Valid()
      reads this
    {
      && InOrder(log)
      && NotBefore(log, clock)
      && if maxAttempts >= 1 then
           && Judged(log, maxAttempts, windowSeconds)
           && Tracks(order, attempts, log, clock, maxAttempts, windowSeconds)
         else Stuck(order, attempts, log)
    }

    constructor (maxAttempts: int, windowSeconds: int, ghost now: real)
      ensures Valid() && log == [] && clock == now
      ensures this.maxAttempts == maxAttempts && this.windowSeconds == windowSeconds
    {
      hide Tracks, Judged, InOrder;
      NothingLogged(now, maxAttempts, windowSeconds);
      this.maxAttempts, this.windowSeconds := maxAttempts, windowSeconds;
      order, attempts, log, clock := [], map[], [], now;
    }

    method Reset()
      requires Valid()
      modifies this
      ensures Valid() && log == [] && clock == old(clock) && attempts == map[]
    {
      hide Tracks, Judged, InOrder;
      NothingLogged(clock, maxAttempts, windowSeconds);
      order, attempts, log := [], map[], [];
    }

    // Time passes.
    lemma Wait(now: real)
      requires Valid() && clock <= now
      ensures NotBefore(log, now)
      ensures maxAttempts >= 1 ==> Tracks(order, attempts, log, now, maxAttempts, windowSeconds)
    {
      hide Tracks, Stuck;
      if maxAttempts >= 1 {
        TracksLater(order, attempts, log, clock, now, maxAttempts, windowSeconds);
      }
    }

    // What the limiter is after answering a call, once cleaned.
    lemma ValidAfter(key: string, now: real)
      requires Valid() && clock == now && (maxAttempts < 1 ==> log == [])
      ensures var live, put := Live(Stored(attempts, key), now, windowSeconds), Put(order, attempts, key);
              var after := log + [Request(key, now, |live| < maxAttempts)];
              && live == Live(Accepted(log, key), now, windowSeconds)
              && InOrder(after) && NotBefore(after, now)
              && if maxAttempts < 1 then live == [] && Stuck(put, attempts[key := live], after)
                 else
                   && Judged(after, maxAttempts, windowSeconds)
                   && if |live| < maxAttempts then
                        var times := attempts[key := live + [now]];
                        Tracks(ToEnd(put, key), times, after, now, maxAttempts, windowSeconds)
                      else
                        && key in attempts
                        && Tracks(put, attempts[key := live], after, now, maxAttempts, windowSeconds)
    {
      if maxAttempts < 1 {
        assert Stored(attempts, key) == [] && Accepted(log, key) == [];
        assert log + [Request(key, now, false)] == [Request(key, now, false)];
      } else {
        hide Live, Accepted, Tracks, Judged, ToEnd, Put, Stuck;
        var live := Live(Stored(attempts, key), now, windowSeconds);
        JudgedByIndex(order, attempts, log, now, maxAttempts, windowSeconds, key);
        JudgedAppend(log, Request(key, now, |live| < maxAttempts), maxAttempts, windowSeconds);
        if |live| < maxAttempts {
          TracksAccept(order, attempts, log, now, maxAttempts, windowSeconds, key);
        } else {
          TracksRefuse(order, attempts, log, now, maxAttempts, windowSeconds, key);
        }
      }
    }

    lemma FirstKey()
      requires Valid() && order != []
      ensures order[0] in attempts
      ensures attempts[order[0]] == [] <==> maxAttempts < 1
      ensures maxAttempts < 1 ==> log != []
    {
      hide Tracks;
      if maxAttempts >= 1 {
        FirstStored(order, attempts, log, clock, maxAttempts, windowSeconds);
      }
    }

    // The cleanup loop stops at the first live key, and has then removed every expired one. It meets a key
    // without a last attempt exactly when nothing is ever allowed and a call has been answered.
    method DropExpired(now: real) returns (clean: bool)
      requires Valid() && clock == now
      modifies this`order, this`attempts
      ensures Valid()
      ensures !clean <==> maxAttempts < 1 && log != []
      ensures !clean ==> order == old(order) && attempts == old(attempts)
      ensures maxAttempts >= 1 ==>
                forall k :: k in attempts <==> Live(Accepted(log, k), now, windowSeconds) != []
    {
      hide Live, Accepted, Judged, InOrder, NotBefore, Tracks;
      while order != []
        invariant Valid()
        invariant maxAttempts < 1 ==> order == old(order) && attempts == old(attempts)
        decreases |order|
      {
        FirstKey();
        var oldest := attempts[order[0]];
        if oldest == [] {
          return false;
        }
        if IsLive(oldest[|oldest| - 1], now, windowSeconds) {
          break;
        }
        TracksDrop(order, attempts, log, now, maxAttempts, windowSeconds);
        order, attempts := order[1..], attempts - {order[0]};
      }
      if maxAttempts >= 1 {
        forall k ensures k in attempts <==> Live(Accepted(log, k), now, windowSeconds) != [] {
          CleanKeys(order, attempts, log, now, maxAttempts, windowSeconds, k);
        }
      }
      clean := true;
    }

    // An attempt is accepted exactly when fewer than maxAttempts accepted ones for its key are younger than
    // the window, and afterwards just the keys with such an attempt are kept. The call fails instead, and
    // changes nothing, exactly when maxAttempts is not positive and an earlier call has been answered.
    method Allow(key: string, now: real) returns (answer: Result<bool, AllowError>)
      requires Valid() && clock <= now
      modifies this
      ensures Valid() && clock == now
      ensures answer.Err? <==> maxAttempts < 1 && old(log) != []
      ensures answer.Err? ==> log == old(log) && order == old(order) && attempts == old(attempts)
      ensures answer.Ok? ==> log == old(log) + [Request(key, now, answer.value)]
      ensures answer.Ok? ==>
                (answer.value <==> |LiveCalls(old(log), key, now, windowSeconds)| < maxAttempts)
      ensures windowSeconds > 0 && maxAttempts >= 1 ==>
                forall k :: k in attempts <==> LiveCalls(log, k, now, windowSeconds) != {}
    {
      hide Live, Accepted, Judged, InOrder, Tracks, Put, ToEnd, Stored, Stuck, LiveCalls;
      LiveCounted(log, key, now, windowSeconds);
      Wait(now);
      clock := now;
      var clean := DropExpired(now);
      if !clean {
        return Err(NoLastAttempt);
      }
      var live := Live(Stored(attempts, key), now, windowSeconds);
      ghost var call := Request(key, now, |live| < maxAttempts);
      ValidAfter(key, now);
      if maxAttempts >= 1 {
        KeysAfter(attempts, log, call, windowSeconds);
      }
      if |live| >= maxAttempts {
        order, attempts := Put(order, attempts, key), attempts[key := live];
        answer := Ok(false);
      } else {
        order, attempts := ToEnd(Put(order, attempts, key), key), attempts[key := live + [now]];
        answer := Ok(true);
      }
      log := log + [call];
      forall k ensures Live(Accepted(log, k), now, windowSeconds) != [] <==>
                       LiveCalls(log, k, now, windowSeconds) != {} {
        LiveCounted(log, k, now, windowSeconds);
      }
    }

    // Whatever was asked, and whatever was evicted and trimmed, no window of time holds more accepted
    // attempts of a key than the limit.
    lemma NoWindowOverfull(key: string, after: real, until: real)
      requires Valid() && until - after <= windowSeconds as real
      ensures |CallsBetween(log, key, after, until)| <= if maxAttempts >= 1 then maxAttempts else 0
    {
      hide CallsBetween;
      BetweenCounted(log, key, after, until);
      if maxAttempts >= 1 {
        WindowNeverOverfull(log, key, maxAttempts, windowSeconds, after, until);
      } else {
        assert Accepted(log, key) == [];
      }
    }
  }
}
