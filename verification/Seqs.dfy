/** Sequences without repetition, sub-sequences, and totals over them. */
module Seqs {

  predicate NoDup<T(==)>(s: seq<T>) {
    forall i, j :: 0 <= i < j < |s| ==> s[i] != s[j]
  }

  lemma NoDupConcat<T>(a: seq<T>, b: seq<T>)
    requires NoDup(a) && NoDup(b) && forall x :: x in b ==> x !in a
    ensures NoDup(a + b)
  {
    var s := a + b;
    forall i, j | 0 <= i < j < |s| ensures s[i] != s[j] {
      if i < |a| <= j {
        assert s[j] == b[j - |a|] && s[i] == a[i];
        assert b[j - |a|] in b;
      }
    }
  }

  // The elements of s that are in `which`, in order.
  function Keep<T(==)>(s: seq<T>, which: set<T>): seq<T> {
    if s == [] then []
    else
      var kept, x := Keep(s[..|s| - 1], which), s[|s| - 1];
      if x in which then kept + [x] else kept
  }

  // The first occurrence of every element, in order: ordered_unique, and dict.fromkeys.
  function Unique<T(==)>(s: seq<T>): seq<T> {
    if s == [] then []
    else
      var unique, x := Unique(s[..|s| - 1]), s[|s| - 1];
      if x in unique then unique else unique + [x]
  }

  function Total<T>(s: seq<T>, f: T -> nat): nat {
    if s == [] then 0 else Total(s[..|s| - 1], f) + f(s[|s| - 1])
  }

  lemma {:induction false} KeepMember<T>(s: seq<T>, which: set<T>, x: T)
    ensures x in Keep(s, which) <==> x in s && x in which
  {
    if s != [] {
      KeepMember(s[..|s| - 1], which, x);
      assert s == s[..|s| - 1] + [s[|s| - 1]];
    }
  }

  lemma {:induction false} KeepNoDup<T>(s: seq<T>, which: set<T>)
    requires NoDup(s)
    ensures NoDup(Keep(s, which))
  {
    if s != [] {
      KeepNoDup(s[..|s| - 1], which);
      KeepMember(s[..|s| - 1], which, s[|s| - 1]);
    }
  }

  predicate Increasing(at: seq<nat>) {
    forall i, j :: 0 <= i < j < |at| ==> at[i] < at[j]
  }

  lemma IncreasingAppend(at: seq<nat>, n: nat)
    requires Increasing(at) && forall k :: k in at ==> k < n
    ensures Increasing(at + [n])
  {
    assert forall i :: 0 <= i < |at| ==> at[i] in at;
  }

  lemma IncreasingPrepend(at: seq<nat>, n: nat)
    requires Increasing(at) && forall k :: k in at ==> n < k
    ensures Increasing([n] + at)
  {
    assert forall i :: 0 <= i < |at| ==> at[i] in at;
  }

  // These positions of s hold the elements of `picked`.
  predicate StandAt<T(==)>(s: seq<T>, picked: seq<T>, at: seq<nat>) {
    |at| == |picked| && forall i :: 0 <= i < |at| ==> at[i] < |s| && s[at[i]] == picked[i]
  }

  lemma StandAtNext<T>(s: seq<T>, x: T, picked: seq<T>, at: seq<nat>)
    requires StandAt(s, picked, at)
    ensures StandAt(s + [x], picked, at) && StandAt(s + [x], picked + [x], at + [|s|])
    ensures forall k :: k in at ==> k < |s|
  {
    forall k | k in at ensures k < |s| {
      var i :| 0 <= i < |at| && at[i] == k;
    }
  }

  lemma Nowhere<T>(s: seq<T>)
    ensures Increasing([]) && StandAt(s, [], [])
  {
  }

  lemma {:induction false} UniqueFacts<T>(s: seq<T>)
    ensures NoDup(Unique(s))
    ensures forall x :: x in Unique(s) <==> x in s
  {
    if s != [] {
      var front, x := s[..|s| - 1], s[|s| - 1];
      UniqueFacts(front);
      assert s == front + [x];
      assert forall y :: y in s <==> y in front || y == x;
    }
  }

  // The elements kept by Unique stand where each occurs first.
  lemma {:induction false} UniqueExactly<T>(s: seq<T>) returns (at: seq<nat>)
    ensures Increasing(at) && StandAt(s, Unique(s), at)
    ensures forall k :: k in at <==> 0 <= k < |s| && s[k] !in s[..k]
  {
    hide Increasing, StandAt;
    if s == [] {
      at := [];
      Nowhere(s);
    } else {
      var n := |s| - 1;
      var front, x := s[..n], s[n];
      at := UniqueExactly(front);
      assert s == front + [x];
      UniqueFacts(front);
      StandAtNext(front, x, Unique(front), at);
      assert forall k :: 0 <= k < n ==> front[..k] == s[..k];
      if x !in front {
        IncreasingAppend(at, n);
        at := at + [n];
      }
    }
  }

  // What is kept, with its positions.
  lemma {:induction false} KeepPositions<T>(s: seq<T>, which: set<T>) returns (at: seq<nat>)
    ensures Increasing(at) && StandAt(s, Keep(s, which), at)
    ensures forall k :: 0 <= k < |s| ==> (s[k] in which <==> k in at)
  {
    hide Increasing, StandAt;
    if s == [] {
      at := [];
      Nowhere(s);
    } else {
      var n := |s| - 1;
      var front, x := s[..n], s[n];
      at := KeepPositions(front, which);
      assert s == front + [x];
      StandAtNext(front, x, Keep(front, which), at);
      if x in which {
        IncreasingAppend(at, n);
        at := at + [n];
      }
    }
  }

  lemma {:induction false} KeepConcat<T>(a: seq<T>, b: seq<T>, which: set<T>)
    ensures Keep(a + b, which) == Keep(a, which) + Keep(b, which)
  {
    if b == [] {
      assert a + b == a;
    } else {
      var front, x := b[..|b| - 1], b[|b| - 1];
      KeepConcat(a, front, which);
      assert (a + b)[..|a + b| - 1] == a + front;
    }
  }

  lemma {:induction false} KeepAll<T>(s: seq<T>, which: set<T>)
    requires forall i :: 0 <= i < |s| ==> s[i] in which
    ensures Keep(s, which) == s
  {
    if s != [] {
      KeepAll(s[..|s| - 1], which);
    }
  }

  lemma {:induction false} KeepSame<T>(s: seq<T>, a: set<T>, b: set<T>)
    requires forall i :: 0 <= i < |s| ==> (s[i] in a <==> s[i] in b)
    ensures Keep(s, a) == Keep(s, b)
  {
    if s != [] {
      KeepSame(s[..|s| - 1], a, b);
    }
  }

  lemma {:induction false} KeepTotal<T>(s: seq<T>, which: set<T>, f: T -> nat)
    ensures Total(Keep(s, which), f) <= Total(s, f)
    ensures |Keep(s, which)| <= |s|
  {
    if s != [] {
      KeepTotal(s[..|s| - 1], which, f);
      var kept := Keep(s[..|s| - 1], which);
      assert (kept + [s[|s| - 1]])[..|kept|] == kept;
    }
  }

  lemma {:induction false} UniqueOfNoDup<T>(s: seq<T>)
    requires NoDup(s)
    ensures Unique(s) == s
  {
    if s != [] {
      UniqueOfNoDup(s[..|s| - 1]);
    }
  }

  lemma {:induction false} TotalAppend<T>(a: seq<T>, b: seq<T>, f: T -> nat)
    ensures Total(a + b, f) == Total(a, f) + Total(b, f)
  {
    if b == [] {
      assert a + b == a;
    } else {
      TotalAppend(a, b[..|b| - 1], f);
      assert (a + b)[..|a + b| - 1] == a + b[..|b| - 1];
    }
  }

  // A list without repetition whose elements all occur in another list weighs no more than it.
  lemma {:induction false} SubsetTotal<T>(a: seq<T>, b: seq<T>, f: T -> nat)
    requires NoDup(a) && forall x :: x in a ==> x in b
    ensures Total(a, f) <= Total(b, f)
    ensures |a| <= |b|
  {
    if a != [] {
      var front, x := a[..|a| - 1], a[|a| - 1];
      assert x in a;
      var k :| 0 <= k < |b| && b[k] == x;
      var rest := b[..k] + b[k + 1..];
      forall y | y in front ensures y in rest {
        assert y in a;
        var j :| 0 <= j < |b| && b[j] == y;
        assert j != k;
        if j < k { assert rest[j] == y; } else { assert rest[j - 1] == y; }
      }
      SubsetTotal(front, rest, f);
      TotalAppend(b[..k], b[k + 1..], f);
      TotalAppend(b[..k], [x] + b[k + 1..], f);
      TotalAppend([x], b[k + 1..], f);
      assert b == b[..k] + ([x] + b[k + 1..]);
      assert [x][..0] == [];
    }
  }

  // Elements of a list without repetition are as many as their set.
  lemma {:induction false} NoDupCardinality<T>(s: seq<T>, elements: set<T>)
    requires forall x :: x in s <==> x in elements
    ensures |elements| <= |s|
    ensures NoDup(s) <==> |s| == |elements|
  {
    if s == [] {
      assert elements == {};
    } else {
      var front, x := s[..|s| - 1], s[|s| - 1];
      assert s == front + [x];
      if x in front {
        NoDupCardinality(front, elements);
        var i :| 0 <= i < |front| && front[i] == x;
        assert s[i] == s[|s| - 1];
      } else {
        NoDupCardinality(front, elements - {x});
        assert NoDup(s) <==> NoDup(front);
      }
    }
  }

  lemma MultisetFront<T>(s: seq<T>)
    requires s != []
    ensures multiset(s[..|s| - 1]) == multiset(s) - multiset{s[|s| - 1]}
    ensures forall x :: x in s[..|s| - 1] ==> x in s
  {
    assert s == s[..|s| - 1] + [s[|s| - 1]];
  }

  lemma OccursTwice<T>(s: seq<T>, i: nat, j: nat)
    requires i < j < |s| && s[i] == s[j]
    ensures multiset(s)[s[i]] >= 2
  {
    assert s == s[..i] + [s[i]] + s[i + 1..j] + [s[j]] + s[j + 1..];
  }

  lemma OccursOnce<T>(s: seq<T>, k: nat)
    requires k < |s| && forall i :: 0 <= i < |s| && s[i] == s[k] ==> i == k
    ensures multiset(s)[s[k]] == 1
  {
    assert s == s[..k] + [s[k]] + s[k + 1..];
    assert s[k] !in s[..k] && s[k] !in s[k + 1..];
  }

  lemma {:induction false} KeepNone<T>(s: seq<T>, which: set<T>)
    requires forall i :: 0 <= i < |s| ==> s[i] !in which
    ensures Keep(s, which) == []
  {
    if s != [] {
      KeepNone(s[..|s| - 1], which);
    }
  }

  lemma {:induction false} KeepOne<T>(s: seq<T>, which: set<T>, x: T)
    requires NoDup(s) && x in s && forall y :: y in s ==> (y in which <==> y == x)
    ensures Keep(s, which) == [x]
  {
    var front, last := s[..|s| - 1], s[|s| - 1];
    assert s == front + [last];
    if last == x {
      forall i | 0 <= i < |front| ensures front[i] !in which { assert s[i] in s; }
      KeepNone(front, which);
    } else {
      KeepOne(front, which, x);
    }
  }

  // Keeping a smaller selection does not depend on having kept a larger one first.
  lemma {:induction false} KeepNested<T>(s: seq<T>, large: set<T>, small: set<T>)
    requires forall i :: 0 <= i < |s| && s[i] in small ==> s[i] in large
    ensures Keep(Keep(s, large), small) == Keep(s, small)
  {
    if s != [] {
      var front, x := s[..|s| - 1], s[|s| - 1];
      KeepNested(front, large, small);
      if x in large {
        assert (Keep(front, large) + [x])[..|Keep(front, large)|] == Keep(front, large);
      }
    }
  }

  // ---- Sorting ----

  // Any two elements can be ranked, and ranks can be chained.
  ghost predicate Ranks<T(!new)>(atMost: (T, T) -> bool) {
    && (forall a, b :: atMost(a, b) || atMost(b, a))
    && forall a, b, c :: atMost(a, b) && atMost(b, c) ==> atMost(a, c)
  }

  ghost predicate SortedBy<T>(s: seq<T>, atMost: (T, T) -> bool) {
    forall i, j :: 0 <= i < j < |s| ==> atMost(s[i], s[j])
  }

  // Puts x behind every element that ranks no higher, as a stable sort does.
  function InsertBy<T>(s: seq<T>, x: T, atMost: (T, T) -> bool): seq<T> {
    if s == [] || atMost(s[|s| - 1], x) then s + [x]
    else InsertBy(s[..|s| - 1], x, atMost) + [s[|s| - 1]]
  }

  function SortBy<T>(s: seq<T>, atMost: (T, T) -> bool): seq<T> {
    if s == [] then [] else InsertBy(SortBy(s[..|s| - 1], atMost), s[|s| - 1], atMost)
  }

  lemma SortedSnoc<T>(s: seq<T>, x: T, atMost: (T, T) -> bool)
    requires SortedBy(s, atMost) && forall y :: y in s ==> atMost(y, x)
    ensures SortedBy(s + [x], atMost)
  {
  }

  lemma {:induction false} InsertByFacts<T(!new)>(s: seq<T>, x: T, atMost: (T, T) -> bool)
    requires Ranks(atMost) && SortedBy(s, atMost)
    ensures multiset(InsertBy(s, x, atMost)) == multiset(s) + multiset{x}
    ensures SortedBy(InsertBy(s, x, atMost), atMost)
  {
    if s == [] || atMost(s[|s| - 1], x) {
      SortedSnoc(s, x, atMost);
    } else {
      var front, last := s[..|s| - 1], s[|s| - 1];
      InsertByFacts(front, x, atMost);
      assert s == front + [last];
      var inserted := InsertBy(front, x, atMost);
      forall y | y in inserted ensures atMost(y, last) {
        assert y in multiset(inserted);
        assert y in front || y == x;
      }
      SortedSnoc(inserted, last, atMost);
    }
  }

  lemma {:induction false} SortByFacts<T(!new)>(s: seq<T>, atMost: (T, T) -> bool)
    requires Ranks(atMost)
    ensures multiset(SortBy(s, atMost)) == multiset(s)
    ensures SortedBy(SortBy(s, atMost), atMost)
  {
    hide Ranks, InsertBy;
    if s != [] {
      var front, last := s[..|s| - 1], s[|s| - 1];
      SortByFacts(front, atMost);
      InsertByFacts(SortBy(front, atMost), last, atMost);
      assert s == front + [last];
    }
  }
}
