/** Compiling an untrusted draft into a grounded packet, after src/policynim/services/compiler.py, and
    recovering the authorised part of the catalogue from that packet, after source_units.py. */
module Compilation {
  import opened Results
  import opened Text
  import opened Seqs
  import opened Json
  import opened Chunking
  import opened Catalog
  import opened PinnedSources

  datatype CompiledConstraint = CompiledConstraint(statement: string, citationIds: seq<string>,
                                                   sourcePolicyIds: seq<string>)

  datatype Citation = Citation(policyId: string, title: string, path: string, section: string, lines: string,
                               chunkId: string)

  // The routed selection: the fields a packet repeats unchanged, and whether it has enough context.
  datatype SelectionPacket = SelectionPacket(echo: seq<Field>, insufficientContext: bool)

  datatype Packet = Packet(
    selection: SelectionPacket, requiredSteps: seq<CompiledConstraint>, forbiddenPatterns: seq<CompiledConstraint>,
    architecturalExpectations: seq<CompiledConstraint>, testExpectations: seq<CompiledConstraint>,
    styleConstraints: seq<CompiledConstraint>, citations: seq<Citation>, insufficientContext: bool)

  // Later chunks with the same identifier win.
  function ContextById(context: seq<ScoredChunk>): map<string, Chunk> {
    if context == [] then map[]
    else
      var last := context[|context| - 1].chunk;
      ContextById(context[..|context| - 1])[last.chunkId := last]
  }

  function Stripped(ids: seq<string>): (stripped: seq<string>)
    ensures |stripped| == |ids| && forall i :: 0 <= i < |ids| ==> stripped[i] == Strip(ids[i])
  {
    seq(|ids|, i requires 0 <= i < |ids| => Strip(ids[i]))
  }

  function PoliciesCited(ids: seq<string>, byId: map<string, Chunk>): (policies: seq<string>)
    requires forall id :: id in ids ==> id in byId
    ensures |policies| == |ids| && forall i :: 0 <= i < |ids| ==> policies[i] == byId[ids[i]].policy.policyId
  {
    seq(|ids|, i requires 0 <= i < |ids| => byId[ids[i]].policy.policyId)
  }

  function CompileStep(step: Constraint, byId: map<string, Chunk>): Option<CompiledConstraint> {
    var ids := Unique(Stripped(step.citationIds));
    if step.statement == "" || ids == [] then None
    else if exists id :: id in ids && id !in byId then None
    else Some(CompiledConstraint(step.statement, ids, Unique(PoliciesCited(ids, byId))))
  }

  // The compiled steps, or nothing at all when one of them cannot be grounded.
  function CompileList(steps: seq<Constraint>, byId: map<string, Chunk>): Option<seq<CompiledConstraint>> {
    if steps == [] then Some([])
    else
      var front, last := CompileList(steps[..|steps| - 1], byId), CompileStep(steps[|steps| - 1], byId);
      if front.None? || last.None? then None else Some(front.value + [last.value])
  }

  lemma {:induction false} CompileListPrefix(steps: seq<Constraint>, byId: map<string, Chunk>, i: nat)
    requires i <= |steps| && CompileList(steps[..i], byId).None?
    ensures CompileList(steps, byId).None?
    decreases |steps| - i
  {
    if i < |steps| {
      assert steps[..i + 1][..i] == steps[..i];
      CompileListPrefix(steps, byId, i + 1);
    } else {
      assert steps[..i] == steps;
    }
  }

  method CompileConstraintList(steps: seq<Constraint>, byId: map<string, Chunk>)
    returns (r: Option<seq<CompiledConstraint>>)
    ensures r == CompileList(steps, byId)
  {
    hide CompileStep;
    var compiled: seq<CompiledConstraint> := [];
    var i := 0;
    while i < |steps|
      invariant 0 <= i <= |steps|
      invariant CompileList(steps[..i], byId) == Some(compiled)
    {
      var step := CompileStep(steps[i], byId);
      assert steps[..i + 1][..i] == steps[..i];
      if step.None? {
        CompileListPrefix(steps, byId, i + 1);
        return None;
      }
      compiled := compiled + [step.value];
      i := i + 1;
    }
    assert steps[..|steps|] == steps;
    return Some(compiled);
  }

  function InsufficientPacket(selection: SelectionPacket): Packet {
    Packet(selection, [], [], [], [], [], [], true)
  }

  function CitationOf(chunk: Chunk): Citation {
    Citation(chunk.policy.policyId, chunk.policy.title, chunk.path, chunk.section, chunk.lines, chunk.chunkId)
  }

  function CitedIn(constraints: seq<CompiledConstraint>): seq<string> {
    if constraints == [] then []
    else CitedIn(constraints[..|constraints| - 1]) + constraints[|constraints| - 1].citationIds
  }

  function CitationsFor(ids: seq<string>, byId: map<string, Chunk>): (citations: seq<Citation>)
    requires forall id :: id in ids ==> id in byId
    ensures |citations| == |ids| && forall i :: 0 <= i < |ids| ==> citations[i] == CitationOf(byId[ids[i]])
  {
    seq(|ids|, i requires 0 <= i < |ids| => CitationOf(byId[ids[i]]))
  }

  lemma {:induction false} CompiledCitesContext(steps: seq<Constraint>, byId: map<string, Chunk>)
    requires CompileList(steps, byId).Some?
    ensures forall id :: id in CitedIn(CompileList(steps, byId).value) ==> id in byId
    ensures |CompileList(steps, byId).value| == |steps|
  {
    if steps != [] {
      CompiledCitesContext(steps[..|steps| - 1], byId);
      var front, last := CompileList(steps[..|steps| - 1], byId).value, CompileStep(steps[|steps| - 1], byId).value;
      assert (front + [last])[..|front|] == front;
    }
  }

  lemma {:induction false} CitedInConcat(a: seq<CompiledConstraint>, b: seq<CompiledConstraint>)
    ensures CitedIn(a + b) == CitedIn(a) + CitedIn(b)
  {
    if b == [] {
      assert a + b == a;
    } else {
      var front, last := b[..|b| - 1], b[|b| - 1];
      CitedInConcat(a, front);
      assert (a + b)[..|a + b| - 1] == a + front;
      assert CitedIn(a + b) == CitedIn(a + front) + last.citationIds;
      assert CitedIn(b) == CitedIn(front) + last.citationIds;
    }
  }

  lemma AllCited(draft: CompiledDraft, byId: map<string, Chunk>)
    requires CompileList(draft.requiredSteps, byId).Some? && CompileList(draft.forbiddenPatterns, byId).Some?
    requires CompileList(draft.architecturalExpectations, byId).Some?
    requires CompileList(draft.testExpectations, byId).Some? && CompileList(draft.styleConstraints, byId).Some?
    ensures var all := CompileList(draft.requiredSteps, byId).value + CompileList(draft.forbiddenPatterns, byId).value
                       + CompileList(draft.architecturalExpectations, byId).value
                       + CompileList(draft.testExpectations, byId).value
                       + CompileList(draft.styleConstraints, byId).value;
            forall id :: id in Unique(CitedIn(all)) ==> id in byId
  {
    hide CompileList, CitedIn, Unique;
    var a, b := CompileList(draft.requiredSteps, byId).value, CompileList(draft.forbiddenPatterns, byId).value;
    var c := CompileList(draft.architecturalExpectations, byId).value;
    var d, e := CompileList(draft.testExpectations, byId).value, CompileList(draft.styleConstraints, byId).value;
    CompiledCitesContext(draft.requiredSteps, byId);
    CompiledCitesContext(draft.forbiddenPatterns, byId);
    CompiledCitesContext(draft.architecturalExpectations, byId);
    CompiledCitesContext(draft.testExpectations, byId);
    CompiledCitesContext(draft.styleConstraints, byId);
    CitedInConcat(a, b);
    CitedInConcat(a + b, c);
    CitedInConcat(a + b + c, d);
    CitedInConcat(a + b + c + d, e);
    UniqueFacts(CitedIn(a + b + c + d + e));
  }

  function Materialize(selection: SelectionPacket, context: seq<ScoredChunk>, draft: CompiledDraft): Packet {
    var byId := ContextById(context);
    if draft.insufficientContext || byId == map[] then InsufficientPacket(selection)
    else
      var required, forbidden := CompileList(draft.requiredSteps, byId), CompileList(draft.forbiddenPatterns, byId);
      var architectural := CompileList(draft.architecturalExpectations, byId);
      var tests, style := CompileList(draft.testExpectations, byId), CompileList(draft.styleConstraints, byId);
      if required.None? || forbidden.None? || architectural.None? || tests.None? || style.None? then
        InsufficientPacket(selection)
      else
        var all := required.value + forbidden.value + architectural.value + tests.value + style.value;
        var ids := Unique(CitedIn(all));
        if all == [] || ids == [] then InsufficientPacket(selection)
        else
          AllCited(draft, byId);
          Packet(selection, required.value, forbidden.value, architectural.value, tests.value, style.value,
                 CitationsFor(ids, byId), false)
  }
}
