/** Section keys and chunk identifiers: slugs, their joins, and the suffixes that repeated sections get. */
module ChunkIds {
  import opened Decimal
  import opened Text

  // str.lower(), as far as it can produce one of a-z: besides A-Z, only the Kelvin sign and the
  // dotted capital I lower to text that holds an ASCII letter.
  function LowerChar(c: char): string {
    if 'A' <= c <= 'Z' then [c - 'A' + 'a']
    else if c == '\U{212A}' then "k"
    else if c == '\U{130}' then "i\U{307}"
    else [c]
  }

  function Lower(s: string): string {
    if s == "" then "" else LowerChar(s[0]) + Lower(s[1..])
  }

  predicate SlugChar(c: char) {
    'a' <= c <= 'z' || '0' <= c <= '9'
  }

  // Every run of other characters becomes one dash.
  function Dashed(s: string): (d: string)
    ensures forall i :: 0 <= i < |d| ==> SlugChar(d[i]) || d[i] == '-'
  {
    if s == "" then ""
    else if SlugChar(s[0]) then [s[0]] + Dashed(s[1..])
    else if |s| > 1 && !SlugChar(s[1]) then Dashed(s[1..])
    else "-" + Dashed(s[1..])
  }

  function StripDashes(s: string): (r: string)
    ensures r != "" ==> r[0] != '-' && r[|r| - 1] != '-'
    ensures forall c :: c in r ==> c in s
    decreases |s|
  {
    if s != "" && s[0] == '-' then StripDashes(s[1..])
    else if s != "" && s[|s| - 1] == '-' then StripDashes(s[..|s| - 1])
    else s
  }

  predicate IsSlug(s: string) {
    s != "" && forall i :: 0 <= i < |s| ==> SlugChar(s[i]) || s[i] == '-'
  }

  function Slugify(value: string): (slug: string)
    ensures IsSlug(slug)
  {
    var dashed := Dashed(Lower(value));
    var slug := StripDashes(dashed);
    assert forall i :: 0 <= i < |slug| ==> slug[i] in dashed;
    if slug == "" then "section" else slug
  }

  // The runs of slug characters in a text, in order.
  function Words(s: string): (words: seq<string>)
    ensures forall i :: 0 <= i < |words| ==> words[i] != "" && forall k :: 0 <= k < |words[i]| ==> SlugChar(words[i][k])
    ensures s != "" && SlugChar(s[0]) ==> words != []
    ensures s == "" ==> words == []
  {
    if s == "" then []
    else if !SlugChar(s[0]) then Words(s[1..])
    else if |s| > 1 && SlugChar(s[1]) then
      var rest := Words(s[1..]);
      [[s[0]] + rest[0]] + rest[1..]
    else [[s[0]]] + Words(s[1..])
  }

  function Edge(s: string, i: int): string
    requires 0 <= i < |s|
  {
    if SlugChar(s[i]) then "" else "-"
  }

  lemma JoinLonger(x: char, words: seq<string>)
    requires words != []
    ensures JoinWith("-", [[x] + words[0]] + words[1..]) == [x] + JoinWith("-", words)
  {
    var longer, rest := [[x] + words[0]] + words[1..], JoinWith("-", words[1..]);
    assert longer[1..] == words[1..];
    assert ([x] + words[0]) + "-" + rest == [x] + (words[0] + "-" + rest);
  }

  lemma JoinFirst(x: char, words: seq<string>)
    ensures JoinWith("-", [[x]] + words) == if words == [] then [x] else [x] + ("-" + JoinWith("-", words))
  {
    assert ([[x]] + words)[1..] == words;
    assert [x] + "-" + JoinWith("-", words) == [x] + ("-" + JoinWith("-", words));
  }

  // Dashes stand between the words, and at an end where other characters stand.
  ghost predicate DashedAt(s: string) {
    if Words(s) == [] then
      Dashed(s) == (if s == "" then "" else "-") && forall i :: 0 <= i < |s| ==> !SlugChar(s[i])
    else s != "" && Dashed(s) == Edge(s, 0) + JoinWith("-", Words(s)) + Edge(s, |s| - 1)
  }

  lemma DashedOne(s: string)
    requires |s| == 1
    ensures DashedAt(s)
  {
    assert s[1..] == "";
    JoinFirst(s[0], []);
  }

  lemma EdgeOf(s: string, i: int)
    requires 0 <= i < |s|
    ensures Edge(s, i) == if SlugChar(s[i]) then "" else "-"
  {
  }

  // What the first character does to the words and dashes of the rest.
  lemma FirstOf(s: string)
    requires |s| > 1
    ensures !SlugChar(s[0]) ==> Words(s) == Words(s[1..])
    ensures SlugChar(s[0]) && SlugChar(s[1]) ==>
              Words(s[1..]) != [] && Words(s) == [[s[0]] + Words(s[1..])[0]] + Words(s[1..])[1..]
    ensures SlugChar(s[0]) && !SlugChar(s[1]) ==> Words(s) == [[s[0]]] + Words(s[1..])
    ensures Dashed(s) ==
              (if SlugChar(s[0]) then [s[0]] else if SlugChar(s[1]) then "-" else "") + Dashed(s[1..])
    ensures Edge(s, 0) == (if SlugChar(s[0]) then "" else "-") && Edge(s[1..], 0) == Edge(s, 1)
    ensures Edge(s[1..], |s| - 2) == Edge(s, |s| - 1)
  {
    assert s[1..][|s| - 2] == s[|s| - 1] && s[1..][0] == s[1];
    assert "" + Dashed(s[1..]) == Dashed(s[1..]);
  }

  // A character that is not of a word.
  lemma DashedGap(s: string)
    requires |s| > 1 && !SlugChar(s[0]) && DashedAt(s[1..])
    ensures DashedAt(s)
  {
    hide JoinWith, Words, Dashed, SlugChar, Edge;
    var rest := s[1..];
    FirstOf(s);
    var joined := JoinWith("-", Words(rest));
    if Words(rest) == [] {
      forall i | 0 <= i < |s| ensures !SlugChar(s[i]) {
        assert i > 0 ==> s[i] == rest[i - 1];
      }
      assert rest[0] == s[1];
    } else if SlugChar(s[1]) {
      EdgeOf(s, 1);
      assert "-" + ("" + joined + Edge(s, |s| - 1)) == "-" + joined + Edge(s, |s| - 1);
    } else {
      EdgeOf(s, 1);
    }
  }

  // The only character of a word, before no other word.
  lemma DashedLast(s: string)
    requires |s| > 1 && SlugChar(s[0]) && DashedAt(s[1..]) && Words(s[1..]) == []
    ensures DashedAt(s)
  {
    hide JoinWith, Words, Dashed, SlugChar, Edge;
    var rest := s[1..];
    FirstOf(s);
    JoinFirst(s[0], []);
    EdgeOf(s, |s| - 1);
    assert !SlugChar(rest[|rest| - 1]) && !SlugChar(rest[0]);
    assert [[s[0]]] + [] == [[s[0]]];
    assert [s[0]] + "-" == "" + [s[0]] + "-";
  }

  // A character of a word, before another one of the same word.
  lemma DashedSame(s: string)
    requires |s| > 1 && SlugChar(s[0]) && SlugChar(s[1]) && DashedAt(s[1..])
    ensures DashedAt(s)
  {
    hide JoinWith, Words, Dashed, SlugChar, Edge;
    var rest := s[1..];
    FirstOf(s);
    EdgeOf(s, 1);
    var joined, end := JoinWith("-", Words(rest)), Edge(s, |s| - 1);
    JoinLonger(s[0], Words(rest));
    assert [s[0]] + ("" + joined + end) == "" + ([s[0]] + joined) + end;
  }

  // The last character of a word, before another word.
  lemma DashedNext(s: string)
    requires |s| > 1 && SlugChar(s[0]) && !SlugChar(s[1]) && DashedAt(s[1..]) && Words(s[1..]) != []
    ensures DashedAt(s)
  {
    hide JoinWith, Words, Dashed, SlugChar, Edge;
    var rest := s[1..];
    FirstOf(s);
    EdgeOf(s, 1);
    var joined, end := JoinWith("-", Words(rest)), Edge(s, |s| - 1);
    JoinFirst(s[0], Words(rest));
    assert [s[0]] + ("-" + joined + end) == "" + ([s[0]] + ("-" + joined)) + end;
  }

  lemma {:induction false} DashedWords(s: string)
    ensures DashedAt(s)
  {
    if |s| == 1 {
      DashedOne(s);
    } else if |s| > 1 {
      hide DashedAt;
      DashedWords(s[1..]);
      if SlugChar(s[0]) {
        if SlugChar(s[1]) {
          DashedSame(s);
        } else if Words(s[1..]) == [] {
          DashedLast(s);
        } else {
          DashedNext(s);
        }
      } else {
        DashedGap(s);
      }
    }
  }

  lemma {:induction false} JoinedEnds(words: seq<string>)
    requires words != []
    requires forall i :: 0 <= i < |words| ==>
               words[i] != "" && forall k :: 0 <= k < |words[i]| ==> SlugChar(words[i][k])
    ensures var joined := JoinWith("-", words);
            joined != "" && SlugChar(joined[0]) && SlugChar(joined[|joined| - 1])
  {
    if |words| > 1 {
      JoinedEnds(words[1..]);
      assert JoinWith("-", words) == words[0] + "-" + JoinWith("-", words[1..]);
    }
  }

  lemma StripAfter(inner: string, after: string)
    requires inner != "" && inner[0] != '-' && inner[|inner| - 1] != '-'
    requires after == "" || after == "-"
    ensures StripDashes(inner + after) == inner
  {
    if after == "" {
      assert inner + after == inner;
    } else {
      assert (inner + after)[..|inner|] == inner && (inner + after)[|inner|] == '-';
      assert StripDashes(inner) == inner;
    }
  }

  lemma StripEdges(before: string, inner: string, after: string)
    requires inner != "" && inner[0] != '-' && inner[|inner| - 1] != '-'
    requires (before == "" || before == "-") && (after == "" || after == "-")
    ensures StripDashes(before + inner + after) == inner
  {
    StripAfter(inner, after);
    var all := before + inner + after;
    if before == "" {
      assert all == inner + after;
    } else {
      assert all[0] == '-' && all[1..] == inner + after;
    }
  }

  // A slug is the words of the lower-case text, joined by dashes, or a placeholder when there is none.
  lemma SlugifyJoinsWords(value: string)
    ensures Slugify(value) == if Words(Lower(value)) == [] then "section" else JoinWith("-", Words(Lower(value)))
  {
    hide Lower, JoinWith, Dashed, Words;
    var s := Lower(value);
    DashedWords(s);
    if Words(s) == [] {
      assert "-"[1..] == "" && StripDashes("") == "";
    } else {
      JoinedEnds(Words(s));
      var joined := JoinWith("-", Words(s));
      var dashed := Dashed(s);
      assert dashed == Edge(s, 0) + joined + Edge(s, |s| - 1);
      StripEdges(Edge(s, 0), joined, Edge(s, |s| - 1));
    }
  }

  predicate SlugPath(slugs: seq<string>) {
    forall i :: 0 <= i < |slugs| ==> IsSlug(slugs[i])
  }

  function Slugs(path: seq<string>): (slugs: seq<string>)
    ensures |slugs| == |path| && SlugPath(slugs)
    ensures forall i :: 0 <= i < |path| ==> slugs[i] == Slugify(path[i])
  {
    if path == [] then [] else [Slugify(path[0])] + Slugs(path[1..])
  }

  function JoinKey(slugs: seq<string>): string {
    JoinWith("__", slugs)
  }

  function SectionKey(path: seq<string>): string {
    var key := JoinKey(Slugs(path));
    if key == "" then "document" else key
  }

  lemma JoinKeyStart(slugs: seq<string>, n: nat)
    requires slugs != [] && n <= |slugs[0]| && SlugPath(slugs)
    ensures n < |slugs[0]| ==> n < |JoinKey(slugs)| && JoinKey(slugs)[n] != '_'
    ensures n == |slugs[0]| ==> |JoinKey(slugs)| == n || JoinKey(slugs)[n] == '_'
  {
  }

  // Slugs hold no underscore, so a key can be taken apart again.
  lemma {:induction false} JoinKeyInjective(p: seq<string>, q: seq<string>)
    requires SlugPath(p) && SlugPath(q) && p != [] && q != []
    requires JoinKey(p) == JoinKey(q)
    ensures p == q
  {
    var m, n := |p[0]|, |q[0]|;
    JoinKeyStart(p, m);
    JoinKeyStart(q, n);
    if m < n { JoinKeyStart(q, m); }
    if n < m { JoinKeyStart(p, n); }
    assert m == n;
    assert p[0] == JoinKey(p)[..m] == JoinKey(q)[..n] == q[0];
    if |p| > 1 && |q| > 1 {
      assert JoinKey(p[1..]) == JoinKey(p)[m + 2..];
      assert JoinKey(q[1..]) == JoinKey(q)[m + 2..];
      JoinKeyInjective(p[1..], q[1..]);
      assert p == [p[0]] + p[1..] && q == [q[0]] + q[1..];
    }
  }

  // Two sections share a key exactly when their heading paths have the same slugs.
  lemma SectionKeyInjective(p: seq<string>, q: seq<string>)
    requires p != [] && q != []
    ensures SectionKey(p) == SectionKey(q) <==> Slugs(p) == Slugs(q)
  {
    JoinKeyStart(Slugs(p), 0);
    JoinKeyStart(Slugs(q), 0);
    if JoinKey(Slugs(p)) == JoinKey(Slugs(q)) {
      JoinKeyInjective(Slugs(p), Slugs(q));
    }
  }

  // ---- Occurrence suffixes ----

  function Count(bases: seq<string>, b: string): (n: nat)
    ensures n > 0 <==> b in bases
  {
    if bases == [] then 0
    else Count(bases[..|bases| - 1], b) + if bases[|bases| - 1] == b then 1 else 0
  }

  // How many sections up to and including section i have its key.
  function Occurrence(bases: seq<string>, i: nat): (n: nat)
    requires i < |bases|
    ensures n >= 1
  {
    Count(bases[..i + 1], bases[i])
  }

  function WithSuffix(base: string, n: nat): string {
    base + "-" + Numeral(n)
  }

  function IdAt(bases: seq<string>, i: nat): string
    requires i < |bases|
  {
    var n := Occurrence(bases, i);
    if n == 1 then bases[i] else WithSuffix(bases[i], n)
  }

  // A key is itself what the suffix rule generates for a repetition of another key.
  ghost predicate Clash(bases: seq<string>, b: string, n: nat) {
    2 <= n <= Count(bases, b) && WithSuffix(b, n) in bases
  }

  lemma SuffixInjective(a: string, m: nat, b: string, n: nat)
    requires WithSuffix(a, m) == WithSuffix(b, n)
    ensures a == b && m == n
  {
    var x, y := Numeral(m), Numeral(n);
    var s := WithSuffix(a, m);
    assert s[|a|] == '-' && s[|b|] == '-';
    assert s[|a| + 1..] == x && s[|b| + 1..] == y;
    assert |a| == |b| by {
      // A dash inside the longer numeral would not be a digit.
      assert forall k :: |a| < k < |s| ==> s[k] == x[k - |a| - 1];
      assert forall k :: |b| < k < |s| ==> s[k] == y[k - |b| - 1];
    }
    assert a == s[..|a|] && b == s[..|b|];
    NumeralInjective(m, n);
  }

  lemma {:induction false} CountPrefix(bases: seq<string>, b: string, i: nat, j: nat)
    requires i <= j <= |bases|
    ensures Count(bases[..i], b) <= Count(bases[..j], b)
  {
    if i < j {
      CountPrefix(bases, b, i, j - 1);
      assert bases[..j][..j - 1] == bases[..j - 1];
    }
  }

  lemma OccurrenceGrows(bases: seq<string>, i: nat, j: nat)
    requires i < j < |bases| && bases[i] == bases[j]
    ensures Occurrence(bases, i) < Occurrence(bases, j)
  {
    CountPrefix(bases, bases[i], i + 1, j);
    assert bases[..j + 1][..j] == bases[..j];
  }

  lemma {:induction false} OccurrenceReached(bases: seq<string>, b: string, n: nat) returns (i: nat)
    requires 1 <= n <= Count(bases, b)
    ensures i < |bases| && bases[i] == b && Occurrence(bases, i) == n
  {
    var last := |bases| - 1;
    if bases[last] == b && n == Count(bases, b) {
      i := last;
      assert bases[..last + 1] == bases;
    } else {
      i := OccurrenceReached(bases[..last], b, n);
      assert bases[..last][..i + 1] == bases[..i + 1];
    }
  }

  ghost predicate DistinctIds(bases: seq<string>) {
    forall i, j :: 0 <= i < j < |bases| ==> IdAt(bases, i) != IdAt(bases, j)
  }

  lemma SuffixedEqualsPlain(bases: seq<string>, i: nat, j: nat)
    requires i < |bases| && j < |bases| && Occurrence(bases, i) == 1 && Occurrence(bases, j) > 1
    requires IdAt(bases, i) == IdAt(bases, j)
    ensures Clash(bases, bases[j], Occurrence(bases, j))
  {
    assert bases[..|bases|] == bases;
    CountPrefix(bases, bases[j], j + 1, |bases|);
  }

  lemma EqualIdsClash(bases: seq<string>, i: nat, j: nat)
    requires i < j < |bases| && IdAt(bases, i) == IdAt(bases, j)
    ensures exists b, n :: Clash(bases, b, n)
  {
    var m, n := Occurrence(bases, i), Occurrence(bases, j);
    if m == 1 && n > 1 {
      SuffixedEqualsPlain(bases, i, j);
    } else if m > 1 && n == 1 {
      SuffixedEqualsPlain(bases, j, i);
    } else {
      if m > 1 { SuffixInjective(bases[i], m, bases[j], n); }
      OccurrenceGrows(bases, i, j);
      assert false;
    }
  }

  lemma ClashEqualIds(bases: seq<string>, b: string, n: nat)
    requires Clash(bases, b, n)
    ensures !DistinctIds(bases)
  {
    var i := OccurrenceReached(bases, b, n);
    var j := OccurrenceReached(bases, WithSuffix(b, n), 1);
    assert IdAt(bases, i) == WithSuffix(b, n) == IdAt(bases, j);
    assert i != j;
  }

  // A document's identifiers are pairwise distinct exactly when no key is a generated repetition of
  // another one.
  lemma IdsDistinctExactly(bases: seq<string>)
    ensures DistinctIds(bases) <==> !exists b, n :: Clash(bases, b, n)
  {
    if !DistinctIds(bases) {
      var i, j :| 0 <= i < j < |bases| && IdAt(bases, i) == IdAt(bases, j);
      EqualIdsClash(bases, i, j);
    }
    if exists b, n :: Clash(bases, b, n) {
      var b, n :| Clash(bases, b, n);
      ClashEqualIds(bases, b, n);
    }
  }

  lemma RepeatedHeadingKeys()
    ensures SectionKey(["A"]) == "a" && SectionKey(["A 2"]) == "a-2"
  {
    assert Lower("A 2") == "a 2" && Lower("A") == "a" by {
      assert "A 2"[1..] == " 2" && " 2"[1..] == "2" && "2"[1..] == "" && "A"[1..] == "";
      assert Lower("2") == "2" && Lower(" 2") == " 2";
    }
    assert Dashed("a 2") == "a-2" && Dashed("a") == "a" by {
      assert "a 2"[1..] == " 2" && " 2"[1..] == "2" && "2"[1..] == "" && "a"[1..] == "";
      assert Dashed("2") == "2" && Dashed(" 2") == "-2";
    }
    assert StripDashes("a-2") == "a-2" && StripDashes("a") == "a";
    assert Slugify("A") == "a" && Slugify("A 2") == "a-2";
    assert Slugs(["A"]) == ["a"] && Slugs(["A 2"]) == ["a-2"];
  }

  // The keys of headings "A", "A" and "A 2", behind any prefix, clash.
  lemma RepeatedKeysClash(p: string)
    ensures Clash([p + "a", p + "a", p + "a-2"], p + "a", 2)
  {
    var a := p + "a";
    var bases := [a, a, p + "a-2"];
    assert bases[..2] == [a, a] && bases[..2][..1] == [a] && [a][..0] == [];
    assert Count([a], a) == 1;
    assert Count(bases[..2], a) == 2;
    assert Numeral(2) == "2";
    assert WithSuffix(a, 2) == p + "a-2" == bases[2];
  }

  // ---- Outer blanks ----

  lemma {:induction false} JoinKeyEnd(slugs: seq<string>)
    requires SlugPath(slugs) && slugs != []
    ensures JoinKey(slugs) != "" && !IsSpace(JoinKey(slugs)[|JoinKey(slugs)| - 1])
  {
    if |slugs| > 1 {
      JoinKeyEnd(slugs[1..]);
      assert JoinKey(slugs) == slugs[0] + "__" + JoinKey(slugs[1..]);
    } else {
      assert IsSlug(slugs[0]);
    }
  }

  lemma SectionKeyEnd(path: seq<string>)
    requires path != []
    ensures SectionKey(path) != "" && !IsSpace(SectionKey(path)[|SectionKey(path)| - 1])
  {
    JoinKeyEnd(Slugs(path));
  }

  lemma SuffixEnd(base: string, n: nat)
    ensures !IsSpace(WithSuffix(base, n)[|WithSuffix(base, n)| - 1])
  {
    var digits := Numeral(n);
    assert IsDigit(digits[|digits| - 1]);
  }

  // ---- Keys hold no colon ----

  lemma {:induction false} JoinKeyColonFree(slugs: seq<string>)
    requires SlugPath(slugs)
    ensures ':' !in JoinKey(slugs)
  {
    if |slugs| == 1 {
      assert IsSlug(slugs[0]);
    } else if |slugs| > 1 {
      JoinKeyColonFree(slugs[1..]);
      assert IsSlug(slugs[0]);
      assert JoinKey(slugs) == slugs[0] + "__" + JoinKey(slugs[1..]);
    }
  }

  lemma KeyColonFree(path: seq<string>, n: nat)
    ensures ':' !in SectionKey(path) && ':' !in WithSuffix(SectionKey(path), n)
  {
    JoinKeyColonFree(Slugs(path));
    assert forall i :: 0 <= i < |Numeral(n)| ==> IsDigit(Numeral(n)[i]);
  }

  // What stands before the last colon is told apart from what follows it.
  lemma LastColon(p: string, a: string, q: string, b: string)
    requires p + ":" + a == q + ":" + b && ':' !in a && ':' !in b
    ensures p == q
  {
    var s := p + ":" + a;
    assert s[|p|] == ':' && s[|q|] == ':';
    assert |p| == |q| by {
      assert forall k :: |p| < k < |s| ==> s[k] == a[k - |p| - 1];
      assert forall k :: |q| < k < |s| ==> s[k] == b[k - |q| - 1];
    }
    assert p == s[..|p|] && q == s[..|q|];
  }
}
