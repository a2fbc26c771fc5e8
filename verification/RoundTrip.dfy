/** From a selection to a draft, to a packet, and back to the selected part of the catalogue. */
module RoundTrip {
  import opened Results
  import opened Seqs
  import opened Chunking
  import opened Catalog
  import opened OutputBudget
  import opened Recognisers
  import opened PinnedSources
  import opened Compilation
  import opened Grounding

  function PoliciesOf(units: seq<SourceUnit>): set<string> {
    set u | u in units :: u.policyId
  }

  // The units that a packet's steps quote, when each step also names its unit's policy and no other.
  ghost predicate NamesOwners(packet: Packet, units: seq<SourceUnit>) {
    && |units| == |packet.requiredSteps|
    && forall i :: 0 <= i < |units| ==> packet.requiredSteps[i].sourcePolicyIds == [units[i].policyId]
  }

  // What a packet authorises of a catalogue.
  ghost function Recovered(catalog: SourceCatalog, packet: Packet): SourceCatalog {
    if !QuotesUnits(catalog, DraftOf(packet)) then EMPTY_CATALOG
    else
      var units := Quoted(catalog, DraftOf(packet).requiredSteps);
      if NamesOwners(packet, units) then Restricted(catalog, PoliciesOf(units)) else EMPTY_CATALOG
  }

  lemma SamePolicySameUnit(catalog: SourceCatalog, u: SourceUnit, v: SourceUnit)
    requires DistinctOwners(catalog.units) && u in catalog.units && v in catalog.units && u.policyId == v.policyId
    ensures u == v
  {
    var i :| 0 <= i < |catalog.units| && catalog.units[i] == u;
    var j :| 0 <= j < |catalog.units| && catalog.units[j] == v;
  }

  // Whatever the packet, a recovered unit is one of the catalogue's that some step of the packet quotes whole
  // and attributes to its policy alone.
  lemma RecoveredAuthorised(catalog: SourceCatalog, packet: Packet, u: SourceUnit)
    requires Valid(catalog) && u in Recovered(catalog, packet).units
    ensures u in catalog.units && exists i :: 0 <= i < |packet.requiredSteps| && packet.requiredSteps[i] == Grounded(u)
  {
    hide WithinBudget, WellFormedUnit, Keep;
    var units := Quoted(catalog, DraftOf(packet).requiredSteps);
    KeepMember(catalog.units, OwnedUnits(catalog.units, PoliciesOf(units)), u);
    var v :| v in units && v.policyId == u.policyId;
    var i :| 0 <= i < |units| && units[i] == v;
    SamePolicySameUnit(catalog, u, v);
    assert packet.requiredSteps[i] == Grounded(u);
  }

  lemma StepsFound(catalog: SourceCatalog, draft: CompiledDraft)
    requires QuotesUnits(catalog, draft)
    ensures forall step :: step in draft.requiredSteps ==> FirstQuoted(catalog.units, step).Some?
  {
  }

  // The loop that collects the quoted units, giving up at the first step that names other owners.
  method SelectOwned(catalog: SourceCatalog, packet: Packet) returns (selected: Option<seq<SourceUnit>>)
    requires forall step :: step in DraftOf(packet).requiredSteps ==> FirstQuoted(catalog.units, step).Some?
    ensures var units := Quoted(catalog, DraftOf(packet).requiredSteps);
            selected == if NamesOwners(packet, units) then Some(units) else None
  {
    hide FirstQuoted;
    var steps := packet.requiredSteps;
    var plain := DraftOf(packet).requiredSteps;
    ghost var units := Quoted(catalog, plain);
    var found: seq<SourceUnit> := [];
    var i := 0;
    while i < |steps|
      invariant 0 <= i <= |steps|
      invariant found == units[..i]
      invariant forall k :: 0 <= k < i ==> steps[k].sourcePolicyIds == [units[k].policyId]
    {
      assert plain[i] in plain;
      var unit := FirstQuoted(catalog.units, plain[i]).value;
      assert unit == units[i];
      if steps[i].sourcePolicyIds != [unit.policyId] {
        return None;
      }
      found := found + [unit];
      i := i + 1;
    }
    assert units[..|steps|] == units;
    return Some(found);
  }

  method CompiledSources(catalog: SourceCatalog, packet: Packet) returns (r: Result<SourceCatalog, ContextError>)
    requires Valid(catalog)
    ensures r == Ok(Recovered(catalog, packet))
  {
    hide Valid, QuotesUnits, Restricted, PoliciesOf;
    var draft := DraftOf(packet);
    var accepted := AcceptsCompiler(catalog, draft);
    if !accepted {
      return Ok(EMPTY_CATALOG);
    }
    assert forall step :: step in draft.requiredSteps ==> FirstQuoted(catalog.units, step).Some? by {
      StepsFound(catalog, draft);
    }
    ghost var units := Quoted(catalog, draft.requiredSteps);
    var selected := SelectOwned(catalog, packet);
    if selected.None? {
      return Ok(EMPTY_CATALOG);
    }
    assert selected.value == units;
    var owners := PoliciesOf(selected.value);
    RestrictedValid(catalog, owners);
    var part := Restricted(catalog, owners);
    r := Construct(part.units, part.fingerprints);
  }

  // ---- The round trip ----

  lemma QuoteNamesUnit(documents: seq<Document>, context: seq<ScoredChunk>, catalog: SourceCatalog,
                       a: SourceUnit, b: SourceUnit)
    requires Pinned(documents, context, catalog) && a in catalog.units && b in catalog.units && Quote(a) == Quote(b)
    ensures a == b
  {
    hide Pinned, Valid;
    PinnedParts(documents, context, catalog);
    UnitWellFormed(catalog, a);
    CitedByOneUnit(documents, context, catalog, a, b, a.citationIds[0]);
  }

  // Over a pinned catalogue every honest draft is accepted, and its quotes name exactly its units.
  lemma HonestCompiledAccepted(documents: seq<Document>, context: seq<ScoredChunk>, catalog: SourceCatalog,
                               units: seq<SourceUnit>)
    requires Pinned(documents, context, catalog) && From(units, catalog) && units != []
    ensures QuotesUnits(catalog, CompiledFrom(units))
    ensures Quoted(catalog, Quotes(units)) == units
  {
    hide Pinned, FirstQuoted;
    forall i, j | 0 <= i < j < |units| ensures Quotes(units)[i] != Quotes(units)[j] {
      assert units[i] in units && units[j] in units;
      if Quote(units[i]) == Quote(units[j]) {
        QuoteNamesUnit(documents, context, catalog, units[i], units[j]);
      }
    }
    assert NoDup(Quotes(units));
    QuotesUnitsExactly(catalog, CompiledFrom(units));
    var quoted := Quoted(catalog, Quotes(units));
    forall i | 0 <= i < |units| ensures quoted[i] == units[i] {
      assert units[i] in units;
      QuoteNamesUnit(documents, context, catalog, quoted[i], units[i]);
    }
  }

  // The owners of resolved units own no other unit.
  lemma RestrictedToResolved(catalog: SourceCatalog, selection: SourceSelection)
    requires Valid(catalog) && Resolve(catalog, selection).Ok? && Resolve(catalog, selection).value != []
    ensures var units := Resolve(catalog, selection).value;
            Restricted(catalog, PoliciesOf(units)).units == units
  {
    hide WithinBudget, WellFormedUnit, Keep;
    var units, all := Resolve(catalog, selection).value, catalog.units;
    ResolvedUnits(catalog, selection);
    var which, owned := Named(all, selection.sourceIds), OwnedUnits(all, PoliciesOf(units));
    forall i | 0 <= i < |all| ensures all[i] in owned <==> all[i] in which {
      KeepMember(all, which, all[i]);
      if all[i] in owned {
        var u :| u in units && u.policyId == all[i].policyId;
        var k :| 0 <= k < |all| && all[k] == u;
        assert k == i;
      }
    }
    KeepSame(all, owned, which);
  }

  lemma GroundedDraft(selection: SelectionPacket, units: seq<SourceUnit>, byId: map<string, Chunk>)
    requires units != [] && forall id :: id in Citations(units) ==> id in byId
    ensures DraftOf(GroundedPacket(selection, units, byId)) == CompiledFrom(units)
    ensures NamesOwners(GroundedPacket(selection, units, byId), units)
  {
    assert Unsourced(GroundedAll(units)) == Quotes(units);
    assert Unsourced([]) == [];
  }

  // Selecting, drafting, compiling and recovering gives back the selected units in catalogue order, with
  // the fingerprints of their policies.
  lemma SelectionRoundTrip(documents: seq<Document>, context: seq<ScoredChunk>, catalog: SourceCatalog,
                           arranged: seq<ScoredChunk>, packet: SelectionPacket, selection: SourceSelection)
    requires Held(documents, context, catalog, arranged)
    requires Resolve(catalog, selection).Ok? && Resolve(catalog, selection).value != []
    ensures CompilerDraft(catalog, selection).Ok?
    ensures var units := Resolve(catalog, selection).value;
            var compiled := Materialize(packet, arranged, CompilerDraft(catalog, selection).value);
            Recovered(catalog, compiled) == SourceCatalog(units, Restricted(catalog, PoliciesOf(units)).fingerprints)
  {
    assert Pinned(documents, context, catalog);
    PinnedParts(documents, context, catalog);
    hide Held, Pinned, Valid, Resolve, Materialize, QuotesUnits, Restricted, PoliciesOf, ContextById,
         GroundedPacket, From;
    var units := Resolve(catalog, selection).value;
    ResolvedUnits(catalog, selection);
    MaterializeUnits(documents, context, catalog, arranged, packet, units);
    GroundedDraft(packet, units, ContextById(arranged));
    HonestCompiledAccepted(documents, context, catalog, units);
    RestrictedToResolved(catalog, selection);
  }

  lemma UnitsFromCatalog(catalog: SourceCatalog)
    requires Valid(catalog)
    ensures From(catalog.units, catalog)
  {
    hide WithinBudget, WellFormedUnit;
    var units := catalog.units;
    forall i, j | 0 <= i < j < |units| ensures units[i] != units[j] {
      assert units[i].sourceId != units[j].sourceId;
    }
  }

  lemma WholePartAccepted(part: SourceCatalog)
    requires Valid(part) && part.units != []
    ensures PreflightDraftOf(part, SourceSelection(SourceIds(part.units), false)) == Ok(PreflightFrom(part.units))
    ensures Honest(part, PreflightFrom(part.units), false)
  {
    hide Valid, Resolve, PreflightFrom, Keep, From;
    var units := part.units;
    UnitsFromCatalog(part);
    SelectByName(part, units);
    KeepAll(units, set u | u in units);
    assert HonestFor(part, PreflightFrom(units), false, SourceSelection(SourceIds(units), false));
  }

  // The part of a catalogue that a selection resolves to is a valid catalogue on its own, and it accepts the
  // preflight draft over all that it holds.
  lemma ResolvedPartAccepted(catalog: SourceCatalog, selection: SourceSelection)
    requires Valid(catalog) && Resolve(catalog, selection).Ok? && Resolve(catalog, selection).value != []
    ensures var units := Resolve(catalog, selection).value;
            var part := Restricted(catalog, PoliciesOf(units));
            && Valid(part)
            && part.units == units
            && PreflightDraftOf(part, SourceSelection(SourceIds(units), false)) == Ok(PreflightFrom(units))
            && Honest(part, PreflightFrom(units), false)
  {
    var units := Resolve(catalog, selection).value;
    RestrictedToResolved(catalog, selection);
    ResolvedUnits(catalog, selection);
    RestrictedValid(catalog, PoliciesOf(units));
    WholePartAccepted(Restricted(catalog, PoliciesOf(units)));
  }

  // The recovered catalogue is valid, and it accepts the preflight draft over all that it holds, which is
  // the draft of the original selection.
  lemma RecoveredPreflightAccepted(documents: seq<Document>, context: seq<ScoredChunk>, catalog: SourceCatalog,
                                   arranged: seq<ScoredChunk>, packet: SelectionPacket, selection: SourceSelection)
    requires Held(documents, context, catalog, arranged)
    requires Resolve(catalog, selection).Ok? && Resolve(catalog, selection).value != []
    ensures var draft := PreflightFrom(Resolve(catalog, selection).value);
            var compiled := Materialize(packet, arranged, CompilerDraft(catalog, selection).value);
            var part := Recovered(catalog, compiled);
            && Valid(part)
            && PreflightDraftOf(part, SourceSelection(SourceIds(part.units), false)) == Ok(draft)
            && Honest(part, draft, false)
  {
    assert Pinned(documents, context, catalog);
    PinnedParts(documents, context, catalog);
    hide Held, Pinned, Valid, Resolve, Materialize, Restricted, PoliciesOf, Recovered, PreflightFrom, Honest,
         PreflightDraftOf;
    SelectionRoundTrip(documents, context, catalog, arranged, packet, selection);
    ResolvedPartAccepted(catalog, selection);
  }
}
