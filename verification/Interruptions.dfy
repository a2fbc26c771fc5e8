/** Searching an exception's causes and contexts for an interruption: src/policynim/operations.py. */
module Interruptions {
  import opened Results

  // An exception; an interruption is one that is no ordinary Exception. Links may form cycles.
  class Error {
    const interruption: bool
    var cause: Error?
    var context: Error?

    constructor (interruption: bool)
      ensures this.interruption == interruption && cause == null && context == null
    {
      this.interruption, cause, context := interruption, null, null;
    }

    function Links(): seq<Error>
      reads this
    {
      (if cause != null then [cause] else []) + (if context != null then [context] else [])
    }
  }

  ghost predicate Closed(graph: set<Error>)
    reads graph
  {
    forall e, l :: e in graph && l in e.Links() ==> l in graph
  }

  // The errors at most `depth` links away, following the links of some errors only.
  ghost function Within(through: set<Error>, from: Error, depth: nat): set<Error>
    reads through
  {
    if depth == 0 then {from}
    else
      var nearer := Within(through, from, depth - 1);
      nearer + set e, l | e in nearer && e in through && l in e.Links() :: l
  }

  ghost predicate Reachable(through: set<Error>, from: Error, to: Error)
    reads through
  {
    exists depth: nat :: to in Within(through, from, depth)
  }

  ghost function Ordinary(graph: set<Error>): set<Error> {
    set e | e in graph && !e.interruption
  }

  lemma Further(through: set<Error>, from: Error, e: Error, l: Error)
    requires e in through && l in e.Links() && Reachable(through, from, e)
    ensures Reachable(through, from, l)
  {
    var depth: nat :| e in Within(through, from, depth);
    assert l in Within(through, from, depth + 1);
  }

  // A set that holds the start and, with any error, what it links to holds everything reachable.
  lemma {:induction false} StaysInside(graph: set<Error>, from: Error, inside: set<Error>, depth: nat)
    requires from in inside && forall e, l :: e in inside && e in graph && l in e.Links() ==> l in inside
    ensures Within(graph, from, depth) <= inside
  {
    if depth > 0 {
      StaysInside(graph, from, inside, depth - 1);
    }
  }

  // What the search keeps: it has only seen reachable ordinary errors, and what they link to is seen or pending.
  ghost predicate Explored(graph: set<Error>, error: Error, seen: set<Error>, pending: seq<Error>)
    reads graph, Ordinary(graph)
  {
    && seen <= graph
    && (forall e :: e in seen ==> !e.interruption)
    && (forall e, l :: e in seen && e in graph && l in e.Links() ==> l in seen || l in pending)
    && (forall e :: e in pending ==> e in graph && Reachable(Ordinary(graph), error, e))
    && (error in seen || error in pending)
  }

  lemma AllSeen(graph: set<Error>, error: Error, seen: set<Error>)
    requires Explored(graph, error, seen, [])
    ensures forall e :: e in graph && Reachable(graph, error, e) ==> !e.interruption
  {
    forall e | e in graph && Reachable(graph, error, e) ensures !e.interruption {
      var depth: nat :| e in Within(graph, error, depth);
      StaysInside(graph, error, seen, depth);
    }
  }

  lemma Expand(graph: set<Error>, error: Error, seen: set<Error>, pending: seq<Error>)
    requires Closed(graph) && Explored(graph, error, seen, pending) && pending != []
    requires !pending[|pending| - 1].interruption
    ensures var current, rest := pending[|pending| - 1], pending[..|pending| - 1];
            Explored(graph, error, seen + {current}, rest + current.Links())
  {
    hide Within, Reachable;
    var current, rest := pending[|pending| - 1], pending[..|pending| - 1];
    assert pending == rest + [current];
    forall l | l in current.Links() ensures l in graph && Reachable(Ordinary(graph), error, l) {
      assert current in pending;
      Further(Ordinary(graph), error, current, l);
    }
  }

  lemma Skip(graph: set<Error>, error: Error, seen: set<Error>, pending: seq<Error>)
    requires Explored(graph, error, seen, pending) && pending != [] && pending[|pending| - 1] in seen
    ensures Explored(graph, error, seen, pending[..|pending| - 1])
  {
    hide Within, Reachable;
    assert pending == pending[..|pending| - 1] + [pending[|pending| - 1]];
  }

  // ---- Which one is found ----

  // Searching an error depth first, its context before its cause, and looking at none twice: the interruption
  // found, and the errors seen.
  ghost function Visit(graph: set<Error>, e: Error, seen: set<Error>): (r: (Option<Error>, set<Error>))
    requires Closed(graph) && e in graph
    reads graph
    ensures seen <= r.1
    decreases graph - seen, 0
  {
    if e in seen then (None, seen)
    else if e.interruption then (Some(e), seen)
    else VisitAll(graph, e.Links(), seen + {e})
  }

  // The last error first.
  ghost function VisitAll(graph: set<Error>, errors: seq<Error>, seen: set<Error>): (r: (Option<Error>, set<Error>))
    requires Closed(graph) && forall e :: e in errors ==> e in graph
    reads graph
    ensures seen <= r.1
    decreases graph - seen, 1 + |errors|
  {
    if errors == [] then (None, seen)
    else
      var r := Visit(graph, errors[|errors| - 1], seen);
      if r.0.Some? then r else VisitAll(graph, errors[..|errors| - 1], r.1)
  }

  lemma {:induction false} VisitConcat(graph: set<Error>, a: seq<Error>, b: seq<Error>, seen: set<Error>)
    requires Closed(graph) && forall e :: e in a + b ==> e in graph
    ensures forall e :: e in a || e in b ==> e in a + b
    ensures var r := VisitAll(graph, b, seen);
            VisitAll(graph, a + b, seen) == if r.0.Some? then r else VisitAll(graph, a, r.1)
    decreases |b|
  {
    hide Closed;
    if b == [] {
      assert a + b == a;
    } else {
      var last := b[|b| - 1];
      assert (a + b)[|a + b| - 1] == last && (a + b)[..|a + b| - 1] == a + b[..|b| - 1];
      assert forall e :: e in a + b[..|b| - 1] ==> e in a + b;
      VisitConcat(graph, a, b[..|b| - 1], Visit(graph, last, seen).1);
    }
  }

  lemma VisitOne(graph: set<Error>, e: Error, seen: set<Error>)
    requires Closed(graph) && e in graph
    ensures VisitAll(graph, [e], seen) == Visit(graph, e, seen)
  {
    hide Closed;
    assert [e][..0] == [];
  }

  // Of an ordinary error not seen before, the context is searched first, and then the cause with what is left.
  lemma ContextFirst(graph: set<Error>, e: Error, seen: set<Error>)
    requires Closed(graph) && e in graph && e !in seen && !e.interruption
    requires e.context != null && e.cause != null
    ensures e.context in graph && e.cause in graph
    ensures var first := Visit(graph, e.context, seen + {e});
            Visit(graph, e, seen) == if first.0.Some? then first else Visit(graph, e.cause, first.1)
  {
    var links := e.Links();
    assert links == [e.cause] + [e.context] && e.cause in links && e.context in links;
    VisitConcat(graph, [e.cause], [e.context], seen + {e});
    VisitOne(graph, e.context, seen + {e});
    VisitOne(graph, e.cause, Visit(graph, e.context, seen + {e}).1);
  }

  // One turn of the search with a stack: an error seen already is dropped, and another makes way for its links.
  lemma VisitNext(graph: set<Error>, pending: seq<Error>, seen: set<Error>)
    requires Closed(graph) && pending != [] && forall e :: e in pending ==> e in graph
    ensures var current, rest := pending[|pending| - 1], pending[..|pending| - 1];
            && (forall e :: e in rest + current.Links() ==> e in graph)
            && VisitAll(graph, pending, seen).0 ==
                 if current in seen then VisitAll(graph, rest, seen).0
                 else if current.interruption then Some(current)
                 else VisitAll(graph, rest + current.Links(), seen + {current}).0
  {
    var current, rest := pending[|pending| - 1], pending[..|pending| - 1];
    assert pending == rest + [current];
    VisitConcat(graph, rest, current.Links(), seen + {current});
  }

  lemma VisitNone(graph: set<Error>, seen: set<Error>)
    requires Closed(graph)
    ensures VisitAll(graph, [], seen).0 == None
  {
  }

  lemma Start(graph: set<Error>, error: Error)
    requires error in graph
    ensures Explored(graph, error, {}, [error])
  {
    assert error in Within(Ordinary(graph), error, 0);
  }

  // The search ends on every graph, and finds an interruption exactly when one can be reached; the one found
  // is reached through ordinary errors, and is the first to be met depth first with contexts before causes.
  method InterruptionInChain(error: Error, ghost graph: set<Error>) returns (found: Option<Error>)
    requires error in graph && Closed(graph)
    ensures found.Some? ==>
              && found.value in graph && found.value.interruption
              && Reachable(Ordinary(graph), error, found.value)
    ensures found.None? ==> forall e :: e in graph && Reachable(graph, error, e) ==> !e.interruption
    ensures found == Visit(graph, error, {}).0
  {
    hide Within, Reachable, Closed, Visit, VisitAll;
    VisitOne(graph, error, {});
    var pending := [error];
    var seen: set<Error> := {};
    Start(graph, error);
    while pending != []
      invariant Explored(graph, error, seen, pending)
      invariant VisitAll(graph, pending, seen).0 == Visit(graph, error, {}).0
      decreases graph - seen, |pending|
    {
      var current := pending[|pending| - 1];
      assert current in pending;
      VisitNext(graph, pending, seen);
      if current in seen {
        Skip(graph, error, seen, pending);
        pending := pending[..|pending| - 1];
      } else if current.interruption {
        return Some(current);
      } else {
        Expand(graph, error, seen, pending);
        pending := pending[..|pending| - 1] + current.Links();
        seen := seen + {current};
      }
    }
    AllSeen(graph, error, seen);
    VisitNone(graph, seen);
    return None;
  }
}
