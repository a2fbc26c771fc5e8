/** The policy identifiers of parsed documents: src/policynim/ingest/parser.py. */
module ParsedPolicies {
  import opened Results
  import opened Text
  import opened Seqs
  import opened ChunkIds
  import opened Chunking
  import opened Catalog
  import opened PinnedSources
  import opened Grounding

  // The character tables: str.lower, str.upper character by character, and str.isalnum.
  datatype Tables = Tables(lower: string -> string, upper: char -> string, isAlnum: char -> bool)

  predicate Unblank(s: string) {
    forall c :: c in s ==> !IsSpace(c)
  }

  // Letters and digits are no blanks, and have upper cases that hold none.
  ghost predicate Sound(tables: Tables) {
    && Unblank(tables.upper('-'))
    && forall c :: tables.isAlnum(c) ==> Unblank(tables.upper(c))
  }

  // A frontmatter value: absent, text, or something else with its str().
  datatype Scalar = Absent | String(text: string) | Other(shown: string)

  function StringValue(value: Scalar): (r: Option<string>)
    ensures r.Some? ==> r.value != "" && Trimmed(r.value)
  {
    match value
    case Absent => None
    case String(text) => StripFacts(text); if Strip(text) == "" then None else Some(Strip(text))
    case Other(shown) => StripFacts(shown); if Strip(shown) == "" then None else Some(Strip(shown))
  }

  // ---- Slugs of path parts ----

  // Letters and digits stay, and every run of other characters becomes one dash.
  function Runs(tables: Tables, s: string): string {
    if s == "" then ""
    else
      var n := |s| - 1;
      var before := Runs(tables, s[..n]);
      if tables.isAlnum(s[n]) then before + [s[n]]
      else if n > 0 && !tables.isAlnum(s[n - 1]) then before
      else before + "-"
  }

  function PartSlug(tables: Tables, part: string): string {
    StripDashes(Runs(tables, tables.lower(part)))
  }

  method SlugifyPart(tables: Tables, part: string) returns (slug: string)
    ensures slug == PartSlug(tables, part)
  {
    var text := tables.lower(part);
    var characters: string := "";
    var previousDash := false;
    for i := 0 to |text|
      invariant characters == Runs(tables, text[..i])
      invariant previousDash <==> i > 0 && !tables.isAlnum(text[i - 1])
    {
      assert text[..i + 1][..i] == text[..i];
      if tables.isAlnum(text[i]) {
        characters := characters + [text[i]];
        previousDash := false;
      } else if !previousDash {
        characters := characters + "-";
        previousDash := true;
      }
    }
    assert text[..|text|] == text;
    slug := StripDashes(characters);
  }

  // Only letters and digits of the text, and dashes, never two in a row.
  lemma {:induction false} RunsShape(tables: Tables, s: string)
    ensures var r := Runs(tables, s);
            && (forall c :: c in r ==> c == '-' || (tables.isAlnum(c) && c in s))
            && (!tables.isAlnum('-') ==>
                  && (forall i :: 0 < i < |r| ==> r[i] != '-' || r[i - 1] != '-')
                  && (s != "" ==> r != "" && (r[|r| - 1] == '-' <==> !tables.isAlnum(s[|s| - 1]))))
  {
    if s != "" {
      RunsShape(tables, s[..|s| - 1]);
    }
  }

  // A letter or digit, or the first of a stretch of others.
  predicate Shown(tables: Tables, s: string, p: int) {
    0 <= p < |s| && (tables.isAlnum(s[p]) || p == 0 || tables.isAlnum(s[p - 1]))
  }

  predicate DashedAt(tables: Tables, s: string, dashed: string, at: seq<nat>) {
    && |at| == |dashed|
    && forall k :: 0 <= k < |at| ==>
         at[k] < |s| && dashed[k] == if tables.isAlnum(s[at[k]]) then s[at[k]] else '-'
  }

  lemma DashedNext(tables: Tables, s: string, c: char, dashed: string, at: seq<nat>)
    requires DashedAt(tables, s, dashed, at)
    ensures DashedAt(tables, s + [c], dashed, at)
    ensures DashedAt(tables, s + [c], dashed + [if tables.isAlnum(c) then c else '-'], at + [|s|])
  {
  }

  lemma RunsNext(tables: Tables, s: string, c: char)
    ensures Runs(tables, s + [c]) ==
              Runs(tables, s)
              + if Shown(tables, s + [c], |s|) then [if tables.isAlnum(c) then c else '-'] else ""
    ensures forall p :: p < |s| ==> (Shown(tables, s + [c], p) <==> Shown(tables, s, p))
  {
    assert (s + [c])[..|s|] == s;
  }

  lemma NoRuns(tables: Tables)
    ensures Increasing([]) && DashedAt(tables, "", Runs(tables, ""), [])
  {
  }

  // The dashed text stands at these positions of the text: its letters and digits, and one dash for every
  // stretch of others.
  lemma {:induction false} RunsExactly(tables: Tables, s: string) returns (at: seq<nat>)
    ensures Increasing(at) && DashedAt(tables, s, Runs(tables, s), at)
    ensures forall p :: p in at <==> Shown(tables, s, p)
  {
    hide Runs, DashedAt, Increasing;
    at := [];
    if s == "" {
      NoRuns(tables);
    } else {
      var n := |s| - 1;
      var front, c := s[..n], s[n];
      assert s == front + [c];
      at := RunsExactly(tables, front);
      RunsNext(tables, front, c);
      DashedNext(tables, front, c, Runs(tables, front), at);
      assert Runs(tables, front) + "" == Runs(tables, front);
      if Shown(tables, s, n) {
        IncreasingAppend(at, n);
        at := at + [n];
      }
    }
  }

  // ---- Identifiers from paths ----

  function Uppered(tables: Tables, s: string): string {
    if s == "" then "" else Uppered(tables, s[..|s| - 1]) + tables.upper(s[|s| - 1])
  }

  function PartIds(tables: Tables, parts: seq<string>): seq<string> {
    if parts == [] then []
    else
      var slug := PartSlug(tables, parts[|parts| - 1]);
      PartIds(tables, parts[..|parts| - 1]) + if slug == "" then [] else [Uppered(tables, slug)]
  }

  // `parts` are those of the document's path without its suffix.
  function DerivedId(tables: Tables, parts: seq<string>): string {
    var below := if parts != [] && parts[0] == "policies" then parts[1..] else parts;
    var id := JoinWith("-", PartIds(tables, below));
    if id == "" then "POLICY-DOCUMENT" else id
  }

  // The identifier is that of the path below the folder of policies.
  lemma DerivedBelow(tables: Tables, parts: seq<string>)
    ensures DerivedId(tables, ["policies"] + parts) ==
              var id := JoinWith("-", PartIds(tables, parts)); if id == "" then "POLICY-DOCUMENT" else id
    ensures parts == [] || parts[0] != "policies" ==>
              DerivedId(tables, parts) == DerivedId(tables, ["policies"] + parts)
  {
    hide PartIds;
    assert (["policies"] + parts)[1..] == parts;
  }

  function PolicyIdOf(tables: Tables, value: Scalar, parts: seq<string>): string {
    match StringValue(value)
    case Some(id) => id
    case None => DerivedId(tables, parts)
  }

  lemma {:induction false} UpperedUnblank(tables: Tables, s: string)
    requires Sound(tables) && forall c :: c in s ==> c == '-' || tables.isAlnum(c)
    ensures Unblank(Uppered(tables, s))
  {
    if s != "" {
      UpperedUnblank(tables, s[..|s| - 1]);
    }
  }

  lemma {:induction false} PartIdsUnblank(tables: Tables, parts: seq<string>)
    requires Sound(tables)
    ensures forall id :: id in PartIds(tables, parts) ==> Unblank(id)
  {
    if parts != [] {
      hide Sound, Unblank;
      var part := parts[|parts| - 1];
      PartIdsUnblank(tables, parts[..|parts| - 1]);
      RunsShape(tables, tables.lower(part));
      UpperedUnblank(tables, PartSlug(tables, part));
    }
  }

  lemma {:induction false} JoinUnblank(ids: seq<string>)
    requires forall id :: id in ids ==> Unblank(id)
    ensures Unblank(JoinWith("-", ids))
  {
    if |ids| > 1 {
      assert ids[0] in ids;
      JoinUnblank(ids[1..]);
    } else if |ids| == 1 {
      assert ids[0] in ids;
    }
  }

  lemma PlaceholderUnblank()
    ensures Unblank("POLICY-DOCUMENT")
  {
  }

  lemma DerivedUnblank(tables: Tables, parts: seq<string>)
    requires Sound(tables)
    ensures DerivedId(tables, parts) != "" && Unblank(DerivedId(tables, parts))
  {
    hide Sound, PartIds, Unblank, JoinWith;
    var below := if parts != [] && parts[0] == "policies" then parts[1..] else parts;
    PartIdsUnblank(tables, below);
    JoinUnblank(PartIds(tables, below));
    PlaceholderUnblank();
  }

  // However a document gets its policy identifier, it is there and carries no outer blanks; one derived from
  // the path carries none at all.
  lemma PolicyIdTrimmed(tables: Tables, value: Scalar, parts: seq<string>)
    requires Sound(tables)
    ensures PolicyIdOf(tables, value, parts) != "" && Trimmed(PolicyIdOf(tables, value, parts))
    ensures Unblank(DerivedId(tables, parts))
  {
    hide Sound, DerivedId, StringValue;
    DerivedUnblank(tables, parts);
    var id := DerivedId(tables, parts);
    assert id[0] in id && id[|id| - 1] in id;
  }

  ghost predicate Parsed(tables: Tables, document: Document) {
    exists value, parts :: document.metadata.policyId == PolicyIdOf(tables, value, parts)
  }

  // Over parsed documents every arrangement of a pinned context keeps to the compiler's assumptions.
  lemma ParsedHeld(tables: Tables, documents: seq<Document>, context: seq<ScoredChunk>, catalog: SourceCatalog,
                   arranged: seq<ScoredChunk>)
    requires Sound(tables) && forall d :: d in documents ==> Parsed(tables, d)
    requires Supplied(documents, context, catalog, arranged)
    ensures Held(documents, context, catalog, arranged)
  {
    hide Supplied, Held, Sound;
    forall d | d in documents ensures !StartsBlank(d.metadata.policyId) {
      var value, parts :| d.metadata.policyId == PolicyIdOf(tables, value, parts);
      PolicyIdTrimmed(tables, value, parts);
    }
    UnblankPoliciesHeld(documents, context, catalog, arranged);
  }
}
