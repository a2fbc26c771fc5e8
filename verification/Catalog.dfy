/** The source-extractive catalogue of src/policynim/source_units.py: whole policy bodies, the compact
    selections a model may make of them, and the drafts materialised from a selection. */
module Catalog {
  import opened Results
  import opened Text
  import opened Decimal
  import opened Seqs
  import opened Json
  import opened Chunking

  const MAX_SOURCE_CHUNKS: nat := 80
  const MAX_SOURCE_BYTES: nat := 256 * 1024
  const MAX_OUTPUT_BYTES: nat := 4 * MAX_SOURCE_BYTES
  const EXTRACTIVE_SUMMARY: string :=
    "Selected policy sources are quoted in full. Review their applicability to the task."
  const EXTRACTIVE_RATIONALE: string := "Selected source policy; its full text appears in the plan steps."

  datatype SourceUnit = SourceUnit(sourceId: string, policyId: string, title: string, body: string,
                                   citationIds: seq<string>, provenance: Option<Encoded>)

  // Fingerprints stand for the canonical chunks they serialise.
  datatype SourceCatalog = SourceCatalog(units: seq<SourceUnit>, fingerprints: seq<Chunk>)

  const EMPTY_CATALOG := SourceCatalog([], [])

  datatype ContextError = OverBudget | IdentityMismatch | OutputBudget | InvalidDocument

  // ---- Serialised forms ----

  function TextItems(texts: seq<string>): seq<Json> {
    if texts == [] then [] else TextItems(texts[..|texts| - 1]) + [Text(texts[|texts| - 1])]
  }

  function EncodedValue(encoded: Option<Encoded>): Json {
    if encoded.None? || encoded.value.json == "" then Null else encoded.value.value
  }

  function UnitJson(unit: SourceUnit): Json {
    Object([
      Field("source_id", Text(unit.sourceId)),
      Field("policy_id", Text(unit.policyId)),
      Field("title", Text(unit.title)),
      Field("body", Text(unit.body)),
      Field("citation_ids", List(TextItems(unit.citationIds))),
      Field("provenance", EncodedValue(unit.provenance))])
  }

  function UnitItems(units: seq<SourceUnit>): seq<Json> {
    if units == [] then [] else UnitItems(units[..|units| - 1]) + [UnitJson(units[|units| - 1])]
  }

  function PromptPayload(units: seq<SourceUnit>): Json {
    List(UnitItems(units))
  }

  function MetadataJson(m: Metadata): Json {
    Object([
      Field("policy_id", Text(m.policyId)), Field("title", Text(m.title)), Field("doc_type", Text(m.docType)),
      Field("domain", Text(m.domain)), Field("tags", List(TextItems(m.tags))),
      Field("grounded_in", List(TextItems(m.groundedIn))),
      Field("provenance", EncodedValue(m.provenance))])
  }

  function ChunkFields(chunk: Chunk): seq<Field> {
    [Field("chunk_id", Text(chunk.chunkId)), Field("path", Text(chunk.path)), Field("section", Text(chunk.section)),
     Field("lines", Text(chunk.lines)), Field("text", Text(chunk.text)), Field("policy", MetadataJson(chunk.policy))]
  }

  function FingerprintSize(chunk: Chunk): nat {
    Size(CompactUtf8, Object(ChunkFields(chunk)))
  }

  // ---- Construction ----

  function CitationCount(unit: SourceUnit): nat {
    |unit.citationIds|
  }

  // "s1" to "s80"
  predicate IsSourceId(s: string) {
    || (|s| == 2 && s[0] == 's' && '1' <= s[1] <= '9')
    || (|s| == 3 && s[0] == 's' && '1' <= s[1] <= '7' && IsDigit(s[2]))
    || s == "s80"
  }

  predicate WellFormedUnit(unit: SourceUnit) {
    && IsSourceId(unit.sourceId)
    && Strip(unit.body) != ""
    && unit.policyId != ""
    && unit.title != ""
    && unit.citationIds != []
    && NoDup(unit.citationIds)
  }

  predicate WithinBudget(catalog: SourceCatalog) {
    && |catalog.units| <= MAX_SOURCE_CHUNKS
    && Total(catalog.units, CitationCount) <= MAX_SOURCE_CHUNKS
    && Size(EscapedAscii, PromptPayload(catalog.units)) <= MAX_SOURCE_BYTES
    && Total(catalog.fingerprints, FingerprintSize) <= MAX_SOURCE_BYTES
  }

  predicate DistinctOwners(units: seq<SourceUnit>) {
    forall i, j :: 0 <= i < j < |units| ==>
      units[i].sourceId != units[j].sourceId && units[i].policyId != units[j].policyId
  }

  predicate Valid(catalog: SourceCatalog) {
    && WithinBudget(catalog)
    && DistinctOwners(catalog.units)
    && forall i :: 0 <= i < |catalog.units| ==> WellFormedUnit(catalog.units[i])
  }

  function Construct(units: seq<SourceUnit>, fingerprints: seq<Chunk>): (r: Result<SourceCatalog, ContextError>)
    ensures r.Ok? ==> Valid(r.value) && r.value == SourceCatalog(units, fingerprints)
    ensures Valid(SourceCatalog(units, fingerprints)) ==> r.Ok?
  {
    var catalog := SourceCatalog(units, fingerprints);
    if !WithinBudget(catalog) then Err(OverBudget)
    else if !Valid(catalog) then Err(IdentityMismatch)
    else Ok(catalog)
  }

  // ---- Selections ----

  datatype SourceSelection = SourceSelection(sourceIds: seq<string>, insufficientContext: bool)

  datatype SelectionError = InsufficientNotEmpty | NotUnique | UnknownId

  function SourceIds(units: seq<SourceUnit>): (ids: seq<string>)
    ensures |ids| == |units| && forall i :: 0 <= i < |units| ==> ids[i] == units[i].sourceId
  {
    seq(|units|, i requires 0 <= i < |units| => units[i].sourceId)
  }

  function Named(units: seq<SourceUnit>, ids: seq<string>): set<SourceUnit> {
    set u | u in units && u.sourceId in ids
  }

  // The selected units in catalogue order; unknown, repeated or inconsistent selections are refused.
  function Resolve(catalog: SourceCatalog, selection: SourceSelection): Result<seq<SourceUnit>, SelectionError> {
    if selection.insufficientContext then
      if selection.sourceIds != [] then Err(InsufficientNotEmpty) else Ok([])
    else if selection.sourceIds == [] || !NoDup(selection.sourceIds) then Err(NotUnique)
    else if exists id :: id in selection.sourceIds && id !in SourceIds(catalog.units) then Err(UnknownId)
    else Ok(Keep(catalog.units, Named(catalog.units, selection.sourceIds)))
  }

  // ---- Drafts ----

  datatype Constraint = Constraint(statement: string, citationIds: seq<string>)

  datatype CompiledDraft = CompiledDraft(
    requiredSteps: seq<Constraint>, forbiddenPatterns: seq<Constraint>, architecturalExpectations: seq<Constraint>,
    testExpectations: seq<Constraint>, styleConstraints: seq<Constraint>, insufficientContext: bool)

  datatype Guidance = Guidance(policyId: string, title: string, rationale: string, citationIds: seq<string>)

  datatype PreflightDraft = PreflightDraft(
    summary: string, applicablePolicies: seq<Guidance>, planSteps: seq<string>,
    implementationGuidance: seq<string>, reviewFlags: seq<string>, testsRequired: seq<string>,
    citationIds: seq<string>, insufficientContext: bool)

  function Quote(unit: SourceUnit): Constraint {
    Constraint(unit.body, unit.citationIds)
  }

  function Quotes(units: seq<SourceUnit>): (steps: seq<Constraint>)
    ensures |steps| == |units| && forall i :: 0 <= i < |units| ==> steps[i] == Quote(units[i])
  {
    if units == [] then [] else Quotes(units[..|units| - 1]) + [Quote(units[|units| - 1])]
  }

  function Guide(unit: SourceUnit): Guidance {
    Guidance(unit.policyId, unit.title, EXTRACTIVE_RATIONALE, unit.citationIds)
  }

  function Guides(units: seq<SourceUnit>): (guides: seq<Guidance>)
    ensures |guides| == |units| && forall i :: 0 <= i < |units| ==> guides[i] == Guide(units[i])
  {
    if units == [] then [] else Guides(units[..|units| - 1]) + [Guide(units[|units| - 1])]
  }

  function Bodies(units: seq<SourceUnit>): (bodies: seq<string>)
    ensures |bodies| == |units| && forall i :: 0 <= i < |units| ==> bodies[i] == units[i].body
  {
    if units == [] then [] else Bodies(units[..|units| - 1]) + [units[|units| - 1].body]
  }

  function Citations(units: seq<SourceUnit>): seq<string> {
    if units == [] then [] else Citations(units[..|units| - 1]) + units[|units| - 1].citationIds
  }

  function CompiledFrom(units: seq<SourceUnit>): CompiledDraft {
    CompiledDraft(Quotes(units), [], [], [], [], units == [])
  }

  function PreflightFrom(units: seq<SourceUnit>): PreflightDraft {
    PreflightDraft(EXTRACTIVE_SUMMARY, Guides(units), Bodies(units), [], [], [], Unique(Citations(units)), units == [])
  }

  function CompilerDraft(catalog: SourceCatalog, selection: SourceSelection): Result<CompiledDraft, SelectionError> {
    match Resolve(catalog, selection)
    case Err(e) => Err(e)
    case Ok(units) => Ok(CompiledFrom(units))
  }

  function PreflightDraftOf(catalog: SourceCatalog, selection: SourceSelection)
    : Result<PreflightDraft, SelectionError>
  {
    match Resolve(catalog, selection)
    case Err(e) => Err(e)
    case Ok(units) => Ok(PreflightFrom(units))
  }

  function ConstraintJson(step: Constraint): Json {
    Object([Field("statement", Text(step.statement)), Field("citation_ids", List(TextItems(step.citationIds)))])
  }

  function ConstraintItems(steps: seq<Constraint>): seq<Json> {
    if steps == [] then [] else ConstraintItems(steps[..|steps| - 1]) + [ConstraintJson(steps[|steps| - 1])]
  }

  function CompiledJson(draft: CompiledDraft): Json {
    Object([
      Field("required_steps", List(ConstraintItems(draft.requiredSteps))),
      Field("forbidden_patterns", List(ConstraintItems(draft.forbiddenPatterns))),
      Field("architectural_expectations", List(ConstraintItems(draft.architecturalExpectations))),
      Field("test_expectations", List(ConstraintItems(draft.testExpectations))),
      Field("style_constraints", List(ConstraintItems(draft.styleConstraints))),
      Field("insufficient_context", Bool(draft.insufficientContext))])
  }

  function GuidanceJson(guidance: Guidance): Json {
    Object([
      Field("policy_id", Text(guidance.policyId)), Field("title", Text(guidance.title)),
      Field("rationale", Text(guidance.rationale)), Field("citation_ids", List(TextItems(guidance.citationIds)))])
  }

  function GuidanceItems(guides: seq<Guidance>): seq<Json> {
    if guides == [] then [] else GuidanceItems(guides[..|guides| - 1]) + [GuidanceJson(guides[|guides| - 1])]
  }

  function PreflightJson(draft: PreflightDraft): Json {
    Object([
      Field("summary", Text(draft.summary)),
      Field("applicable_policies", List(GuidanceItems(draft.applicablePolicies))),
      Field("plan_steps", List(TextItems(draft.planSteps))),
      Field("implementation_guidance", List(TextItems(draft.implementationGuidance))),
      Field("review_flags", List(TextItems(draft.reviewFlags))),
      Field("tests_required", List(TextItems(draft.testsRequired))),
      Field("citation_ids", List(TextItems(draft.citationIds))),
      Field("insufficient_context", Bool(draft.insufficientContext))])
  }

  predicate FitsOutput(j: Json) {
    Size(CompactUtf8, j) <= MAX_OUTPUT_BYTES
  }
}
