/** Redacting the bounded tail of a diagnostic file: scripts/verify_installed_package.py. */
module Redaction {
  import opened Results
  import opened Seqs

  const TAIL: nat := 16000

  type Bytes = seq<bv8>

  datatype Interval = Interval(start: nat, end: nat)

  datatype Piece = Plain(bytes: Bytes) | Marker

  // ---- What must and must not be shown ----

  // The interval holds an occurrence of one of the values.
  predicate Marks(text: Bytes, values: set<Bytes>, iv: Interval) {
    iv.start < iv.end <= |text| && text[iv.start..iv.end] in values
  }

  // The byte at p lies in an occurrence of one of the values.
  ghost predicate Hidden(text: Bytes, values: set<Bytes>, p: nat) {
    exists iv :: Marks(text, values, iv) && iv.start <= p < iv.end
  }

  // A reader sees bytes, and the places where something was taken out.
  type View = seq<Option<bv8>>

  function Gap(view: View): View {
    if view != [] && view[|view| - 1].None? then view else view + [None]
  }

  // The bytes from `from` up to `to` that lie in no occurrence, in order, with one gap where any number of
  // successive bytes do.
  ghost function Shown(text: Bytes, values: set<Bytes>, from: nat, to: nat): View
    requires to <= |text|
  {
    if to <= from then []
    else
      var earlier := Shown(text, values, from, to - 1);
      if Hidden(text, values, to - 1) then Gap(earlier) else earlier + [Some(text[to - 1])]
  }

  function TailStart(text: Bytes): nat {
    if |text| > TAIL then |text| - TAIL else 0
  }

  function Seen(bytes: Bytes): (view: View)
    ensures |view| == |bytes| && forall i :: 0 <= i < |bytes| ==> view[i] == Some(bytes[i])
  {
    seq(|bytes|, i requires 0 <= i < |bytes| => Some(bytes[i]))
  }

  // What a reader makes of the pieces, successive markers showing one gap.
  function Emitted(pieces: seq<Piece>): View {
    if pieces == [] then []
    else
      var earlier, last := Emitted(pieces[..|pieces| - 1]), pieces[|pieces| - 1];
      if last.Plain? then earlier + Seen(last.bytes) else Gap(earlier)
  }

  lemma EmittedAppend(pieces: seq<Piece>, next: Piece)
    ensures Emitted(pieces + [next]) == if next.Plain? then Emitted(pieces) + Seen(next.bytes) else Gap(Emitted(pieces))
  {
    assert (pieces + [next])[..|pieces|] == pieces;
  }

  lemma {:induction false} ShownPlain(text: Bytes, values: set<Bytes>, from: nat, a: nat, b: nat)
    requires from <= a <= b <= |text|
    requires forall p :: a <= p < b ==> !Hidden(text, values, p)
    ensures Shown(text, values, from, b) == Shown(text, values, from, a) + Seen(text[a..b])
  {
    if a < b {
      ShownPlain(text, values, from, a, b - 1);
      assert Seen(text[a..b]) == Seen(text[a..b - 1]) + [Some(text[b - 1])];
    }
  }

  lemma {:induction false} ShownHidden(text: Bytes, values: set<Bytes>, from: nat, a: nat, b: nat)
    requires from <= a < b <= |text|
    requires forall p :: a <= p < b ==> Hidden(text, values, p)
    ensures Shown(text, values, from, b) == Gap(Shown(text, values, from, a))
  {
    if a + 1 < b {
      ShownHidden(text, values, from, a, b - 1);
    }
  }

  // The byte at p is shown, or is the first of the hidden ones from `from` on.
  ghost predicate Leaves(text: Bytes, values: set<Bytes>, from: nat, p: nat) {
    Hidden(text, values, p) && p > from ==> !Hidden(text, values, p - 1)
  }

  // The view is what stands at these positions: the byte, or a gap for a hidden one.
  ghost predicate ViewAt(text: Bytes, values: set<Bytes>, view: View, at: seq<nat>) {
    && |view| == |at|
    && forall k :: 0 <= k < |at| ==>
         at[k] < |text| && view[k] == if Hidden(text, values, at[k]) then None else Some(text[at[k]])
  }

  lemma ViewNext(text: Bytes, values: set<Bytes>, view: View, at: seq<nat>, p: nat)
    requires ViewAt(text, values, view, at) && p < |text|
    ensures ViewAt(text, values, view + [if Hidden(text, values, p) then None else Some(text[p])], at + [p])
  {
    hide Hidden;
  }

  // Hidden bytes leave a gap in the end of the view, and shown ones none.
  lemma {:induction false} EndsInGap(text: Bytes, values: set<Bytes>, from: nat, to: nat)
    requires to <= |text|
    ensures var view := Shown(text, values, from, to);
            view != [] && view[|view| - 1].None? <==> from < to && Hidden(text, values, to - 1)
  {
    hide Hidden;
  }

  lemma NothingShown(text: Bytes, values: set<Bytes>, from: nat)
    requires from <= |text|
    ensures Shown(text, values, from, from) == [] && ViewAt(text, values, [], []) && Increasing([])
  {
  }

  lemma LeavesNext(text: Bytes, values: set<Bytes>, from: nat, p: nat)
    requires from <= p < |text|
    ensures var view := Shown(text, values, from, p);
            Shown(text, values, from, p + 1) ==
              if Leaves(text, values, from, p) then
                view + [if Hidden(text, values, p) then None else Some(text[p])]
              else view
  {
    hide Hidden;
    EndsInGap(text, values, from, p);
  }

  // A view shows every byte that is not hidden, in order, and one gap for every stretch of hidden ones, and
  // nothing else.
  lemma {:induction false} ShownExactly(text: Bytes, values: set<Bytes>, from: nat, to: nat) returns (at: seq<nat>)
    requires from <= to <= |text|
    ensures Increasing(at) && ViewAt(text, values, Shown(text, values, from, to), at)
    ensures forall p :: p in at <==> from <= p < to && Leaves(text, values, from, p)
  {
    hide Hidden, Leaves, Shown, ViewAt, Gap, Increasing;
    if from == to {
      NothingShown(text, values, from);
      at := [];
    } else {
      var p := to - 1;
      at := ShownExactly(text, values, from, p);
      EndsInGap(text, values, from, p);
      LeavesNext(text, values, from, p);
      if Leaves(text, values, from, p) {
        ViewNext(text, values, Shown(text, values, from, p), at, p);
        IncreasingAppend(at, p);
        at := at + [p];
      }
    }
  }

  // ---- The bounded capture ----

  // Cutting off a front that is further from a byte than any value is long hides and uncovers nothing there.
  lemma CaptureHides(file: Bytes, values: set<Bytes>, cut: nat, overlap: nat, p: nat)
    requires cut == 0 || cut + overlap <= p
    requires cut <= p < |file|
    requires forall v :: v in values ==> |v| <= overlap
    ensures Hidden(file[cut..], values, p - cut) <==> Hidden(file, values, p)
  {
    var captured := file[cut..];
    if Hidden(captured, values, p - cut) {
      var iv :| Marks(captured, values, iv) && iv.start <= p - cut < iv.end;
      var moved := Interval(iv.start + cut, iv.end + cut);
      assert file[moved.start..moved.end] == captured[iv.start..iv.end];
      assert Marks(file, values, moved);
    }
    if Hidden(file, values, p) {
      var iv :| Marks(file, values, iv) && iv.start <= p < iv.end;
      assert |file[iv.start..iv.end]| <= overlap;
      var moved := Interval(iv.start - cut, iv.end - cut);
      assert captured[moved.start..moved.end] == file[iv.start..iv.end];
      assert Marks(captured, values, moved);
    }
  }

  lemma ShownNext(text: Bytes, values: set<Bytes>, from: nat, p: nat)
    requires from <= p < |text|
    ensures var earlier := Shown(text, values, from, p);
            Shown(text, values, from, p + 1) ==
              if Hidden(text, values, p) then Gap(earlier) else earlier + [Some(text[p])]
  {
    hide Hidden, Gap;
  }

  lemma ShownNone(text: Bytes, values: set<Bytes>, from: nat)
    requires from <= |text|
    ensures Shown(text, values, from, from) == []
  {
  }

  lemma {:induction false} CaptureShows(file: Bytes, values: set<Bytes>, cut: nat, overlap: nat, from: nat, to: nat)
    requires cut == 0 || cut + overlap <= from
    requires cut <= from <= to <= |file|
    requires forall v :: v in values ==> |v| <= overlap
    ensures Shown(file[cut..], values, from - cut, to - cut) == Shown(file, values, from, to)
  {
    hide Hidden, Gap, Shown;
    var captured := file[cut..];
    if from == to {
      ShownNone(file, values, from);
      ShownNone(captured, values, from - cut);
    } else {
      var p := to - 1;
      CaptureShows(file, values, cut, overlap, from, p);
      CaptureHides(file, values, cut, overlap, p);
      ShownNext(file, values, from, p);
      ShownNext(captured, values, from - cut, p - cut);
    }
  }

  // ---- The intervals ----

  predicate OccursAt(text: Bytes, value: Bytes, start: nat) {
    start + |value| <= |text| && text[start..start + |value|] == value
  }

  // bytes.find: the first occurrence at or after `from`.
  function Find(text: Bytes, value: Bytes, from: nat): (r: Option<nat>)
    ensures r.Some? ==> from <= r.value && OccursAt(text, value, r.value)
    ensures r.Some? ==> forall q :: from <= q < r.value ==> !OccursAt(text, value, q)
    ensures r.None? ==> forall q :: from <= q ==> !OccursAt(text, value, q)
    decreases |text| - from
  {
    if from > |text| then None
    else if OccursAt(text, value, from) then Some(from)
    else if from == |text| then None
    else Find(text, value, from + 1)
  }

  // Just the occurrences of the values are listed.
  ghost predicate Lists(intervals: seq<Interval>, text: Bytes, values: set<Bytes>) {
    forall iv :: iv in intervals <==> Marks(text, values, iv)
  }

  method FindOccurrences(text: Bytes, value: Bytes) returns (intervals: seq<Interval>)
    requires value != []
    ensures Lists(intervals, text, {value})
  {
    intervals := [];
    var start := Find(text, value, 0);
    while start.Some?
      invariant start.Some? ==> OccursAt(text, value, start.value)
      invariant forall iv :: iv in intervals <==>
                  iv.end == iv.start + |value| && OccursAt(text, value, iv.start)
                  && (start.Some? ==> iv.start < start.value)
      decreases if start.Some? then |text| + 1 - start.value else 0
    {
      intervals := intervals + [Interval(start.value, start.value + |value|)];
      start := Find(text, value, start.value + 1);
    }
  }

  method AllOccurrences(text: Bytes, values: set<Bytes>) returns (intervals: seq<Interval>)
    requires [] !in values
    ensures Lists(intervals, text, values)
  {
    intervals := [];
    var pending, done: set<Bytes> := values, {};
    while pending != {}
      invariant done + pending == values && done !! pending
      invariant Lists(intervals, text, done)
      decreases |pending|
    {
      var value :| value in pending;
      var found := FindOccurrences(text, value);
      intervals := intervals + found;
      pending, done := pending - {value}, done + {value};
    }
    assert done == values;
  }

  // ---- Sorting ----

  predicate Before(a: Interval, b: Interval) {
    a.start < b.start || (a.start == b.start && a.end <= b.end)
  }

  ghost predicate Ordered(intervals: seq<Interval>) {
    SortedBy(intervals, Before)
  }

  function Sort(intervals: seq<Interval>): seq<Interval> {
    SortBy(intervals, Before)
  }

  // ---- The output ----

  // What the loop keeps: all that is to be seen up to the cursor has been emitted.
  ghost predicate Upto(text: Bytes, values: set<Bytes>, base: nat, cursor: nat, pieces: seq<Piece>) {
    base <= cursor <= |text| && Emitted(pieces) == Shown(text, values, base, cursor)
  }

  lemma IntervalMarks(text: Bytes, values: set<Bytes>, intervals: seq<Interval>, i: nat)
    requires Lists(intervals, text, values) && i < |intervals|
    ensures Marks(text, values, intervals[i])
    ensures intervals[i].start < intervals[i].end <= |text|
  {
    assert intervals[i] in intervals;
  }

  lemma HiddenBy(text: Bytes, values: set<Bytes>, iv: Interval, p: nat)
    requires Marks(text, values, iv) && iv.start <= p < iv.end
    ensures Hidden(text, values, p)
  {
  }

  // A byte behind every interval passed and before the next one is in no occurrence.
  lemma NotHiddenYet(text: Bytes, values: set<Bytes>, intervals: seq<Interval>, i: nat, p: nat)
    requires Lists(intervals, text, values) && Ordered(intervals) && i <= |intervals|
    requires forall k :: 0 <= k < i ==> intervals[k].end <= p
    requires i < |intervals| ==> p < intervals[i].start
    ensures !Hidden(text, values, p)
  {
    forall k | 0 <= k < |intervals| ensures !(intervals[k].start <= p < intervals[k].end) {
      assert k > i ==> Before(intervals[i], intervals[k]);
    }
    forall iv | Marks(text, values, iv) ensures !(iv.start <= p < iv.end) {
      assert iv in intervals;
    }
  }

  lemma PassInterval(text: Bytes, values: set<Bytes>, base: nat, cursor: nat, pieces: seq<Piece>,
                     intervals: seq<Interval>, i: nat)
    requires Upto(text, values, base, cursor, pieces) && Lists(intervals, text, values) && Ordered(intervals)
    requires i < |intervals| && intervals[i].end > cursor
    requires forall k :: 0 <= k < i ==> intervals[k].end <= cursor
    ensures var start, end := intervals[i].start, intervals[i].end;
            var until := if start > cursor then start else cursor;
            cursor <= until <= end <= |text|
            && Upto(text, values, base, end, pieces + [Plain(text[cursor..until]), Marker])
  {
    hide Hidden, Emitted, Ordered, Shown, Marks;
    var iv := intervals[i];
    IntervalMarks(text, values, intervals, i);
    var until := if iv.start > cursor then iv.start else cursor;
    forall p | cursor <= p < until ensures !Hidden(text, values, p) {
      NotHiddenYet(text, values, intervals, i, p);
    }
    forall p | until <= p < iv.end ensures Hidden(text, values, p) {
      HiddenBy(text, values, iv, p);
    }
    ShownPlain(text, values, base, cursor, until);
    ShownHidden(text, values, base, until, iv.end);
    EmittedAppend(pieces, Plain(text[cursor..until]));
    EmittedAppend(pieces + [Plain(text[cursor..until])], Marker);
    assert pieces + [Plain(text[cursor..until]), Marker] == (pieces + [Plain(text[cursor..until])]) + [Marker];
  }

  lemma PassRest(text: Bytes, values: set<Bytes>, base: nat, cursor: nat, pieces: seq<Piece>,
                 intervals: seq<Interval>)
    requires Upto(text, values, base, cursor, pieces) && Lists(intervals, text, values) && Ordered(intervals)
    requires forall k :: 0 <= k < |intervals| ==> intervals[k].end <= cursor
    ensures Emitted(pieces + [Plain(text[cursor..])]) == Shown(text, values, base, |text|)
  {
    hide Hidden, Emitted, Ordered, Shown, Marks, Lists;
    forall p | cursor <= p < |text| ensures !Hidden(text, values, p) {
      NotHiddenYet(text, values, intervals, |intervals|, p);
    }
    ShownPlain(text, values, base, cursor, |text|);
    EmittedAppend(pieces, Plain(text[cursor..]));
    assert text[cursor..|text|] == text[cursor..];
  }

  lemma NothingYet(text: Bytes, values: set<Bytes>, base: nat)
    requires base <= |text|
    ensures Upto(text, values, base, base, [])
  {
  }

  lemma CursorInText(text: Bytes, values: set<Bytes>, base: nat, cursor: nat, pieces: seq<Piece>)
    requires Upto(text, values, base, cursor, pieces)
    ensures base <= cursor <= |text|
  {
  }

  lemma BeforeRanks()
    ensures Ranks(Before)
  {
  }

  lemma SortedLists(found: seq<Interval>, text: Bytes, values: set<Bytes>)
    requires Lists(found, text, values)
    ensures Lists(Sort(found), text, values) && Ordered(Sort(found))
  {
    hide Marks, SortBy, SortedBy, Before;
    BeforeRanks();
    SortByFacts(found, Before);
    forall iv ensures iv in Sort(found) <==> Marks(text, values, iv) {
      assert iv in multiset(Sort(found)) <==> iv in multiset(found);
    }
  }

  method Redact(text: Bytes, values: set<Bytes>, base: nat) returns (pieces: seq<Piece>)
    requires [] !in values && base <= |text|
    ensures Emitted(pieces) == Shown(text, values, base, |text|)
  {
    hide Hidden, Shown, Emitted, Ordered, Marks, Lists, Upto;
    var found := AllOccurrences(text, values);
    var intervals := Sort(found);
    SortedLists(found, text, values);
    var cursor := base;
    pieces := [];
    NothingYet(text, values, base);
    var i := 0;
    while i < |intervals|
      invariant 0 <= i <= |intervals|
      invariant Upto(text, values, base, cursor, pieces)
      invariant forall k :: 0 <= k < i ==> intervals[k].end <= cursor
    {
      var start, end := intervals[i].start, intervals[i].end;
      if end > cursor {
        PassInterval(text, values, base, cursor, pieces, intervals, i);
        pieces := pieces + [Plain(text[cursor..if start > cursor then start else cursor]), Marker];
        cursor := end;
      }
      i := i + 1;
    }
    PassRest(text, values, base, cursor, pieces, intervals);
    CursorInText(text, values, base, cursor, pieces);
    pieces := pieces + [Plain(text[cursor..])];
  }

  // The length of the longest value.
  method Overlap(values: set<Bytes>) returns (longest: nat)
    ensures forall v :: v in values ==> |v| <= longest
    ensures longest > 0 ==> exists v :: v in values && |v| == longest
  {
    longest := 0;
    var pending := values;
    while pending != {}
      invariant pending <= values
      invariant forall v :: v in values - pending ==> |v| <= longest
      invariant longest > 0 ==> exists v :: v in values && |v| == longest
      decreases |pending|
    {
      var value :| value in pending;
      if |value| > longest {
        longest := |value|;
      }
      pending := pending - {value};
    }
  }

  // Unless some value is too long to be caught by the bounded capture, what is emitted is exactly the bytes
  // of the tail that lie in no occurrence of a value anywhere in the file, in order, and a marker stands
  // wherever bytes were taken out and nowhere else.
  method ReadDiagnostic(file: Bytes, values: set<Bytes>) returns (r: Option<seq<Piece>>)
    requires [] !in values
    ensures r.None? <==> exists v :: v in values && |v| > 16000
    ensures r.Some? ==>
              Emitted(r.value) == Shown(file, values, if |file| > 16000 then |file| - 16000 else 0, |file|)
  {
    hide Hidden, Shown, Emitted;
    var overlap := Overlap(values);
    if overlap > TAIL {
      return None;
    }
    var limit := TAIL + overlap;
    var cut := if |file| > limit then |file| - limit else 0;
    var captured := file[cut..];
    var base := if |captured| > TAIL then |captured| - TAIL else 0;
    assert base == TailStart(file) - cut;
    var pieces := Redact(captured, values, base);
    CaptureShows(file, values, cut, overlap, TailStart(file), |file|);
    return Some(pieces);
  }
}
