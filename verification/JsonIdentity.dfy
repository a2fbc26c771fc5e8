/** What is compared, measured and shown as JSON loses nothing of the chunk, unit, draft or packet it stands
    for, in src/policynim/source_units.py and src/policynim/services/compiler.py. */
module JsonIdentity {
  import opened Results
  import opened Json
  import opened Chunking
  import opened Catalog
  import opened Compilation
  import opened Grounding

  // ---- Lists ----

  lemma {:induction false} TextsAt(s: seq<string>)
    ensures |TextItems(s)| == |s| && forall i :: 0 <= i < |s| ==> TextItems(s)[i] == Text(s[i])
  {
    if s != [] {
      TextsAt(s[..|s| - 1]);
    }
  }

  lemma TextsIdentified(a: seq<string>, b: seq<string>)
    requires TextItems(a) == TextItems(b)
    ensures a == b
  {
    hide TextItems;
    TextsAt(a);
    TextsAt(b);
    forall i | 0 <= i < |a| ensures a[i] == b[i] {
      assert Text(a[i]) == Text(b[i]);
    }
  }

  lemma StepIdentified(a: Constraint, b: Constraint)
    requires ConstraintJson(a) == ConstraintJson(b)
    ensures a == b
  {
    hide TextItems;
    var x, y := ConstraintJson(a).fields, ConstraintJson(b).fields;
    assert x[0].value == Text(a.statement) && y[0].value == Text(b.statement);
    assert x[1].value == List(TextItems(a.citationIds));
    assert y[1].value == List(TextItems(b.citationIds));
    TextsIdentified(a.citationIds, b.citationIds);
  }

  lemma {:induction false} StepsAt(s: seq<Constraint>)
    ensures |ConstraintItems(s)| == |s| && forall i :: 0 <= i < |s| ==> ConstraintItems(s)[i] == ConstraintJson(s[i])
  {
    hide ConstraintJson;
    if s != [] {
      StepsAt(s[..|s| - 1]);
    }
  }

  lemma StepsIdentified(a: seq<Constraint>, b: seq<Constraint>)
    requires ConstraintItems(a) == ConstraintItems(b)
    ensures a == b
  {
    hide ConstraintItems, ConstraintJson;
    StepsAt(a);
    StepsAt(b);
    forall i | 0 <= i < |a| ensures a[i] == b[i] {
      StepIdentified(a[i], b[i]);
    }
  }

  lemma GuidanceIdentified(a: Guidance, b: Guidance)
    requires GuidanceJson(a) == GuidanceJson(b)
    ensures a == b
  {
    hide TextItems;
    var x, y := GuidanceJson(a).fields, GuidanceJson(b).fields;
    assert x[0].value == Text(a.policyId) && y[0].value == Text(b.policyId);
    assert x[1].value == Text(a.title) && y[1].value == Text(b.title);
    assert x[2].value == Text(a.rationale) && y[2].value == Text(b.rationale);
    assert x[3].value == List(TextItems(a.citationIds));
    assert y[3].value == List(TextItems(b.citationIds));
    TextsIdentified(a.citationIds, b.citationIds);
  }

  lemma {:induction false} GuidesAt(s: seq<Guidance>)
    ensures |GuidanceItems(s)| == |s| && forall i :: 0 <= i < |s| ==> GuidanceItems(s)[i] == GuidanceJson(s[i])
  {
    hide GuidanceJson;
    if s != [] {
      GuidesAt(s[..|s| - 1]);
    }
  }

  lemma GuidesIdentified(a: seq<Guidance>, b: seq<Guidance>)
    requires GuidanceItems(a) == GuidanceItems(b)
    ensures a == b
  {
    hide GuidanceItems, GuidanceJson;
    GuidesAt(a);
    GuidesAt(b);
    forall i | 0 <= i < |a| ensures a[i] == b[i] {
      GuidanceIdentified(a[i], b[i]);
    }
  }

  lemma ConstraintIdentified(a: CompiledConstraint, b: CompiledConstraint)
    requires ConstraintFields(a) == ConstraintFields(b)
    ensures a == b
  {
    hide TextItems;
    var x, y := ConstraintFields(a).fields, ConstraintFields(b).fields;
    assert x[0].value == Text(a.statement) && y[0].value == Text(b.statement);
    assert x[1].value == List(TextItems(a.citationIds));
    assert y[1].value == List(TextItems(b.citationIds));
    TextsIdentified(a.citationIds, b.citationIds);
    assert x[2].value == List(TextItems(a.sourcePolicyIds));
    assert y[2].value == List(TextItems(b.sourcePolicyIds));
    TextsIdentified(a.sourcePolicyIds, b.sourcePolicyIds);
  }

  lemma {:induction false} ConstraintsAt(s: seq<CompiledConstraint>)
    ensures |CompiledItems(s)| == |s| && forall i :: 0 <= i < |s| ==> CompiledItems(s)[i] == ConstraintFields(s[i])
  {
    hide ConstraintFields;
    if s != [] {
      ConstraintsAt(s[..|s| - 1]);
    }
  }

  lemma ConstraintsIdentified(a: seq<CompiledConstraint>, b: seq<CompiledConstraint>)
    requires CompiledItems(a) == CompiledItems(b)
    ensures a == b
  {
    hide CompiledItems, ConstraintFields;
    ConstraintsAt(a);
    ConstraintsAt(b);
    forall i | 0 <= i < |a| ensures a[i] == b[i] {
      ConstraintIdentified(a[i], b[i]);
    }
  }

  lemma CitationIdentified(a: Citation, b: Citation)
    requires CitationJson(a) == CitationJson(b)
    ensures a == b
  {
    hide TextItems;
    var x, y := CitationJson(a).fields, CitationJson(b).fields;
    assert x[0].value == Text(a.policyId) && y[0].value == Text(b.policyId);
    assert x[1].value == Text(a.title) && y[1].value == Text(b.title);
    assert x[2].value == Text(a.path) && y[2].value == Text(b.path);
    assert x[3].value == Text(a.section) && y[3].value == Text(b.section);
    assert x[4].value == Text(a.lines) && y[4].value == Text(b.lines);
    assert x[5].value == Text(a.chunkId) && y[5].value == Text(b.chunkId);
  }

  lemma {:induction false} CitationsAt(s: seq<Citation>)
    ensures |CitationItems(s)| == |s| && forall i :: 0 <= i < |s| ==> CitationItems(s)[i] == CitationJson(s[i])
  {
    hide CitationJson;
    if s != [] {
      CitationsAt(s[..|s| - 1]);
    }
  }

  lemma CitationsIdentified(a: seq<Citation>, b: seq<Citation>)
    requires CitationItems(a) == CitationItems(b)
    ensures a == b
  {
    hide CitationItems, CitationJson;
    CitationsAt(a);
    CitationsAt(b);
    forall i | 0 <= i < |a| ensures a[i] == b[i] {
      CitationIdentified(a[i], b[i]);
    }
  }

  // ---- Chunks and units ----

  // The same but for how the text of the provenance is written.
  predicate SameProvenance(a: Option<Encoded>, b: Option<Encoded>) {
    EncodedValue(a) == EncodedValue(b)
  }

  lemma MetadataIdentified(a: Metadata, b: Metadata)
    requires MetadataJson(a) == MetadataJson(b)
    ensures SameProvenance(a.provenance, b.provenance)
    ensures a == b.(provenance := a.provenance)
  {
    hide TextItems;
    var x, y := MetadataJson(a).fields, MetadataJson(b).fields;
    assert x[0].value == y[0].value && x[1].value == y[1].value && x[2].value == y[2].value;
    assert x[3].value == y[3].value && x[6].value == y[6].value;
    assert x[4].value == List(TextItems(a.tags));
    assert y[4].value == List(TextItems(b.tags));
    assert x[5].value == List(TextItems(a.groundedIn));
    assert y[5].value == List(TextItems(b.groundedIn));
    TextsIdentified(a.tags, b.tags);
    TextsIdentified(a.groundedIn, b.groundedIn);
  }

  // Chunks that are written alike are the same.
  lemma ChunkIdentified(a: Chunk, b: Chunk)
    requires ChunkFields(a) == ChunkFields(b)
    ensures SameProvenance(a.policy.provenance, b.policy.provenance)
    ensures a == b.(policy := b.policy.(provenance := a.policy.provenance))
  {
    hide MetadataJson;
    var x, y := ChunkFields(a), ChunkFields(b);
    assert x[0].value == y[0].value && x[1].value == y[1].value && x[2].value == y[2].value;
    assert x[3].value == y[3].value && x[4].value == y[4].value && x[5].value == y[5].value;
    MetadataIdentified(a.policy, b.policy);
  }

  // So are units that the model is shown alike.
  lemma UnitIdentified(a: SourceUnit, b: SourceUnit)
    requires UnitJson(a) == UnitJson(b)
    ensures SameProvenance(a.provenance, b.provenance) && a == b.(provenance := a.provenance)
  {
    hide TextItems;
    var x, y := UnitJson(a).fields, UnitJson(b).fields;
    assert x[0].value == y[0].value && x[1].value == y[1].value && x[2].value == y[2].value;
    assert x[3].value == y[3].value && x[5].value == y[5].value;
    assert x[4].value == List(TextItems(a.citationIds));
    assert y[4].value == List(TextItems(b.citationIds));
    TextsIdentified(a.citationIds, b.citationIds);
  }

  // ---- Drafts and packets ----

  lemma CompilerDraftIdentified(a: CompiledDraft, b: CompiledDraft)
    requires CompiledJson(a) == CompiledJson(b)
    ensures a == b
  {
    hide ConstraintItems;
    var x, y := CompiledJson(a).fields, CompiledJson(b).fields;
    assert forall i :: 0 <= i < 6 ==> x[i].value == y[i].value;
    StepsIdentified(a.requiredSteps, b.requiredSteps);
    StepsIdentified(a.forbiddenPatterns, b.forbiddenPatterns);
    StepsIdentified(a.architecturalExpectations, b.architecturalExpectations);
    StepsIdentified(a.testExpectations, b.testExpectations);
    StepsIdentified(a.styleConstraints, b.styleConstraints);
  }

  lemma PreflightDraftIdentified(a: PreflightDraft, b: PreflightDraft)
    requires PreflightJson(a) == PreflightJson(b)
    ensures a == b
  {
    hide TextItems, GuidanceItems;
    var x, y := PreflightJson(a).fields, PreflightJson(b).fields;
    assert forall i :: 0 <= i < 8 ==> x[i].value == y[i].value;
    GuidesIdentified(a.applicablePolicies, b.applicablePolicies);
    TextsIdentified(a.planSteps, b.planSteps);
    TextsIdentified(a.implementationGuidance, b.implementationGuidance);
    TextsIdentified(a.reviewFlags, b.reviewFlags);
    TextsIdentified(a.testsRequired, b.testsRequired);
    TextsIdentified(a.citationIds, b.citationIds);
  }

  // Packets of one selection that are written alike are the same.
  lemma PacketIdentified(a: Packet, b: Packet)
    requires a.selection == b.selection && PacketJson(a) == PacketJson(b)
    ensures a == b
  {
    hide CompiledItems, CitationItems;
    var echo := a.selection.echo;
    var x, y := OwnFields(a), OwnFields(b);
    assert x == (echo + x)[|echo|..] && y == (echo + y)[|echo|..];
    assert forall i :: 0 <= i < |x| ==> x[i].value == y[i].value;
    ConstraintsIdentified(a.requiredSteps, b.requiredSteps);
    ConstraintsIdentified(a.forbiddenPatterns, b.forbiddenPatterns);
    ConstraintsIdentified(a.architecturalExpectations, b.architecturalExpectations);
    ConstraintsIdentified(a.testExpectations, b.testExpectations);
    ConstraintsIdentified(a.styleConstraints, b.styleConstraints);
    CitationsIdentified(a.citations, b.citations);
  }
}
