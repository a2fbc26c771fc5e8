# PolicyNIM: a verified model

PolicyNIM cuts Markdown policy documents into citable sections, lets a model pick whole policies by short identifiers,
and serves the result through a concurrent server with budgets, retries and rate limits. This project models the parts
of it where several functions, or a whole run, have to agree, and proves what they promise together.

`dafny verify dfyconfig.toml` checks everything.

**Citation coordinates** (`Text`, `Frontmatter`, `Headings`, `Sections`, `SectionSpans`, `HeadingPaths`,
`CharTables`, `ChunkIds`, `Chunking`, `Coordinates`, `LineShapes`, `CodeBlocks`, `Counterexamples`). A file's text is
split from its frontmatter, scanned for headings outside code fences (a subset of sections 4.2 and 4.5 of CommonMark
0.31.2), cut into sections and numbered into chunks. Each loop of the source is a method proved against a
specification function. About those functions it is proved that the headings are exactly the lines outside all code
blocks that have a heading's marks, fences and headings being described by the text of their lines; that every
chunk's `s-e` span, applied to the lines of the original file and stripped, is the chunk's text, and that every body
line with content is cited by exactly one chunk. For every document, its heading paths are the chains of enclosing
headings exactly when the headings' levels are *nested*, and its chunk identifiers are distinct exactly when no key
is another key with a generated suffix; `Counterexamples` holds a document for which each promise fails.

**The source catalogue** (`Json`, `JsonText`, `JsonIdentity`, `SizeLimits`, `Ordering`, `Seqs`, `Catalog`,
`OutputBudget`, `Recognisers`, `PinnedSources`, `PinnedExactly`, `UnitSources`, `SourceBinding`, `Selections`,
`Compilation`, `Grounding`, `PacketContents`, `ParsedPolicies`, `PacketBudget`, `RoundTrip`, `Witness`). A catalogue
is built from pinned documents, drafts are materialised from a model's selection, arbitrary drafts are recognised
again, compiled into packets, and a packet gives back the part of the catalogue it authorises. The recognisers accept
exactly what the builders can build; a pinned catalogue partitions its context's chunk identifiers and binds to
exactly the arrangements of that context; an untrusted draft compiles to whole quoted units or to nothing, and no
size is refused but for what the packet repeats of its routed selection; selection, draft, packet and recovered
catalogue form a round trip; and whatever a packet says, recovery gives only units that it quotes whole. What units,
drafts and packets say is also told in terms of the documents and files alone: whole bodies, all their chunks in
order, and for each citation the path and lines of the file that it stands for. Sizes are those of JSON encodings,
character by character. Some of these results hold only for policy identifiers that do not begin with a blank: all
parsed documents have such, and `Witness` has a document that satisfies every hypothesis, and one that shows the
hypothesis is needed.

**The rate limiter** (`RateLimiter`). A class with the source's ordered index, refined against the plain log of its
calls.

**The executor** (`Executor`, `ExecutorRuns`, `SyncWait`, `CallStages`). The lock-protected blocks are methods of a
class, each equal to a transition function; over those functions a state machine takes every interleaving of calls,
workers, cancellations and closers, and its invariants hold in every run. The wait that outlasts cancellations is a
method of its own; its wakes are shown to drive a call through the stages of the state machine, whatever other calls
and closers do in between.

**Budgets and retries** (`Budget`, `Retry`). The shared deadline and the usage counters are a class; clock,
cancellation, usage callback, send and validation are free to do anything that their types allow at every step. The
retry loop is proved against a trace of its sends and waits, each with the times at which it started and finished.

**Two loops** (`Redaction`, `Interruptions`). Redacting a bounded tail shows exactly the bytes that lie in no
occurrence of a sensitive value anywhere in the file. The search through exception links ends on cyclic graphs, finds
an interruption exactly when one can be reached, and finds the first in depth-first order.

**Runtime rules** (`RuntimeRules`, `RuleParsers`, `RuleSpans`, `RuleFields`). The index-driven parsers accept a block
exactly when a line-by-line reading of it is well formed, and return the rules of that reading: each rule has the
fields that the lines of its span give by their text.

Conventions: text is a sequence of characters with `\n` as the only line break; exceptions are results; times and
delays are real numbers; anything the outside world decides is a parameter or an arbitrary choice.

Where promise and code differ:

- Heading paths are documented as full heading ancestry, but `stack[:level - 1]` gives it only for nested headings:
  `HeadingPaths.DocumentPathsRightExactly` says when, `Counterexamples.SkippedLevelMisfiled` has a document where not.
- Chunk identifiers are meant to be stable names of chunks, but can collide: `Chunking.ChunkIdsDistinctExactly` says
  when, `Counterexamples.RepeatedHeadingCollides` has a document where they do.
- A rate limiter that allows no attempt answers one call, and fails on the next:
  `RateLimiter.InMemoryRateLimiter.Allow` says exactly when. The settings never build such a limiter. Times given to a
  limiter must not decrease, as its own documentation demands.
- The compiler strips citation identifiers, so a hand-built policy identifier that begins with a blank loses its
  citations: `Grounding.QuoteCompiles` says that this is exactly when a quoted unit does not compile to itself, and
  `Witness.BlankPolicyLosesCitation` has the document. With policies ` p` and `p` side by side, ` p:k` becomes `p:k`
  and names `p` as the owner of the other policy's text. Documents that were parsed never have such identifiers
  (`ParsedPolicies.PolicyIdTrimmed`).

## Model

| member | source | states |
|---|---|---|
| Headings.FenceMeaning | src/policynim/ingest/chunking.py:212-254 | the scanner's fence state is the code block that encloses the line: some earlier line opened it outside any other, and no line since closed it |
| Headings.ScanOneLine | src/policynim/ingest/chunking.py:214-235 | one turn finds the heading on its line, if that lies in no fence, and the fence open after it |
| Headings.FindHeadingEvents | src/policynim/ingest/chunking.py:206-237 | the scanner finds exactly the headings of the document |
| Headings.HeadingsExact | src/policynim/ingest/chunking.py:206-268 | a heading is found if and only if a line outside every fence is that heading |
| Headings.HeadingsInBody | src/policynim/ingest/chunking.py:214-235 | heading events are strictly increasing and lie in the body |
| Text.StripExactly | src/policynim/ingest/chunking.py:271-279 | a stripped text is what is left between the blanks at both ends |
| LineShapes.OpensExactly | src/policynim/ingest/chunking.py:240-246 | a line opens a fence if and only if it is up to three spaces, three or more backticks or tildes, and no more of the same |
| LineShapes.ClosesExactly | src/policynim/ingest/chunking.py:249-254 | a line closes a fence if and only if it is up to three spaces, at least as many of the fence's marks, and then only spaces and tabs |
| LineShapes.TitleExactly | src/policynim/ingest/chunking.py:271-279 | a title is the words of what follows the marks, without a closing run of marks that spaces or tabs set off, joined by single spaces |
| LineShapes.HeadsExactly | src/policynim/ingest/chunking.py:257-268 | a line is a heading if and only if it is up to three spaces, one to six marks, a blank or the line's end, and its title |
| CodeBlocks.BlocksExist | src/policynim/ingest/chunking.py:206-237 | the lines of every document have code blocks: stretches from an opening line to its first closing line, or to the end, with no other opening line outside them |
| CodeBlocks.HeadingsOutsideBlocks | src/policynim/ingest/chunking.py:206-237 | given the code blocks of a document, the scanner finds exactly the lines outside them that are headings by their text |
| Sections.CutSection | src/policynim/ingest/chunking.py:144-172 | one heading's section and the heading stack after it |
| Sections.CutSections | src/policynim/ingest/chunking.py:133-172 | the loop cuts the sections of all headings, in order, leaving out empty ones |
| Sections.ExtractSections | src/policynim/ingest/chunking.py:99-179 | extraction with its preamble, whole-document and failure cases |
| Sections.CutToken | src/policynim/ingest/parser.py:130-155 | the parser's turn, in body coordinates, cuts the same section as the chunker's in file coordinates |
| Sections.CutTokens | src/policynim/ingest/parser.py:118-155 | the parser's loop cuts the sections of the same headings |
| Sections.PreambleOfTokens | src/policynim/ingest/parser.py:281-301 | the parser's preamble is the chunker's |
| Sections.ParserSections | src/policynim/ingest/parser.py:100-162 | given equal headings, the parser returns the chunker's sections, and only fails when there are none |
| SectionSpans.OneSectionPerHeading | src/policynim/ingest/chunking.py:144-172 | every heading yields exactly one section |
| SectionSpans.HeadingSectionsTile | src/policynim/ingest/chunking.py:144-172 | section spans follow one another without a gap from the first heading to the last line, each quoting its lines |
| SectionSpans.SectionsTile | src/policynim/ingest/chunking.py:112-203 | with the preamble, sections tile the body but for leading blank lines |
| SectionSpans.TilingIsFaithful | src/policynim/ingest/chunking.py:112-203 | such a tiling puts every line with content in exactly one section |
| SectionSpans.ExtractedFaithful | src/policynim/ingest/chunking.py:112-179 | extraction succeeds on every body with content and quotes it faithfully |
| HeadingPaths.StackStep | src/policynim/ingest/chunking.py:156-157 | after a right path, the next path is right if and only if its heading is nested |
| HeadingPaths.PathsRightExactly | src/policynim/ingest/chunking.py:144-168 | all heading paths are the chains of enclosing headings if and only if all headings are nested |
| HeadingPaths.UnskippedPathsRight | src/policynim/ingest/chunking.py:144-168 | when levels start at one and never skip, each path is the chain of nearest enclosing headings, as deep as its level |
| HeadingPaths.ExtractedHeadings | src/policynim/ingest/chunking.py:144-172 | every heading of a document has its section, on its line and under the stack's path |
| HeadingPaths.OtherSections | src/policynim/ingest/chunking.py:112-203 | the only other section is the whole body of a document without headings, or a preamble from its first line to the line before the first heading |
| HeadingPaths.PathEnds | src/policynim/ingest/chunking.py:150-157 | a path ends with its heading's title, or with the document's if the heading has none |
| HeadingPaths.DocumentPathsRightExactly | src/policynim/ingest/chunking.py:99-179 | for every body, the paths of the extracted heading sections are the chains of its headings if and only if all those headings are nested |
| Counterexamples.SkippedLevelMisfiled | src/policynim/ingest/chunking.py:99-179 | the body `# A`, `### B`, `### C` files its third section under `A`, `B`, `C`, although only `A` encloses it |
| ChunkIds.Slugify | src/policynim/ingest/chunking.py:299-301 | a slug is never empty and holds only lower-case letters, digits and dashes |
| ChunkIds.SlugifyJoinsWords | src/policynim/ingest/chunking.py:299-301 | a slug is the runs of lower-case letters and digits of the lowered text, in order, joined by dashes |
| CharTables.SlugAlphabet | src/policynim/ingest/chunking.py:26-26 | the letters and digits of slugs, spelled out |
| CharTables.Lowered | src/policynim/ingest/chunking.py:299-301 | every capital becomes its small letter, and small letters and digits stay |
| CharTables.BlankAlphabet | src/policynim/ingest/chunking.py:271-279 | the characters that stripping takes off, spelled out |
| ChunkIds.JoinKeyInjective | src/policynim/ingest/chunking.py:294-296 | joined keys come apart into their slugs in one way only |
| ChunkIds.SectionKeyInjective | src/policynim/ingest/chunking.py:294-301 | two heading paths share a key if and only if their slugs are equal |
| ChunkIds.SuffixInjective | src/policynim/ingest/chunking.py:79-83 | two suffixed identifiers are equal only for the same key and occurrence |
| ChunkIds.IdsDistinctExactly | src/policynim/ingest/chunking.py:70-83 | identifiers are pairwise distinct if and only if no key is another key plus a suffix generated for it |
| Counterexamples.RepeatedHeadingCollides | src/policynim/ingest/chunking.py:58-96 | a document with the body `# A`, `# A`, `# A 2` has two chunks with one identifier |
| Chunking.SpanInjective | src/policynim/ingest/chunking.py:286-291 | a formatted span names its two lines |
| Chunking.ChunksOf | src/policynim/ingest/chunking.py:58-96 | chunking fails only without content, and every chunk carries its document's metadata |
| Chunking.NumberChunk | src/policynim/ingest/chunking.py:73-94 | with exact counts of the keys so far, a chunk gets its key and occurrence |
| Chunking.NumberChunks | src/policynim/ingest/chunking.py:70-96 | the loop numbers all sections |
| Chunking.ChunkPolicyDocument | src/policynim/ingest/chunking.py:58-96 | the chunks of a document, failures included |
| Chunking.ChunkIdsDistinctExactly | src/policynim/ingest/chunking.py:70-94 | the chunk identifiers of a document are distinct if and only if its section keys do not clash |
| Frontmatter.SplitFrontmatter | src/policynim/ingest/parser.py:165-201 | frontmatter, body and body start, or an unclosed frontmatter |
| Frontmatter.FrontmatterExactly | src/policynim/ingest/parser.py:165-201 | frontmatter is what stands between a first line of dashes and the next line of dashes or dots, and the body is what follows, line for line |
| Frontmatter.BodyLinesAreFileLines | src/policynim/ingest/parser.py:165-201 | the body's lines are the file's own lines from the body start on |
| Coordinates.EveryCitationQuotes | src/policynim/ingest/chunking.py:58-203 | each chunk's span applied to the original file's lines and stripped is the chunk's text |
| Coordinates.EveryLineCitedOnce | src/policynim/ingest/chunking.py:58-203 | each body line with content is cited by exactly one chunk |
| Json.EscapedIsLongest | src/policynim/source_units.py:331-348 | neither the compact form in which drafts are measured nor any other is longer than the escaped form of the payload |
| JsonText.DumpSize | src/policynim/source_units.py:105-114 | the size of a value is the number of UTF-8 bytes of its text, in each encoding |
| JsonIdentity.ChunkIdentified | src/policynim/source_units.py:99-104 | chunks that are dumped alike are the same, but for how their provenance is written |
| JsonIdentity.UnitIdentified | src/policynim/source_units.py:331-348 | units that the payload shows alike are the same, but for how their provenance is written |
| JsonIdentity.CompilerDraftIdentified | src/policynim/source_units.py:251-257 | compiler drafts that are measured alike are the same |
| JsonIdentity.PreflightDraftIdentified | src/policynim/source_units.py:287-293 | preflight drafts that are measured alike are the same |
| JsonIdentity.PacketIdentified | src/policynim/services/compiler.py:121-127 | packets of one selection that are measured alike are the same |
| SizeLimits.OutputLimit | src/policynim/source_units.py:255-255 | a draft fits if and only if its compact text has at most a mebibyte |
| SizeLimits.SourceLimits | src/policynim/source_units.py:105-141 | the sizes of a catalogue fit if and only if there are at most 80 chunks and each text has at most a quarter of a mebibyte |
| Ordering.SortEqualExactly | src/policynim/source_units.py:101-104 | sorted by identifier, two lists without repeated identifiers are equal if and only if they are arrangements of one another |
| Ordering.AtMostExactly | src/policynim/source_units.py:101-104 | identifiers are ordered by their first difference, and a beginning comes first |
| Catalog.Construct | src/policynim/source_units.py:63-86 | construction succeeds if and only if the catalogue is valid |
| OutputBudget.PreflightFits | src/policynim/source_units.py:230-249 | every preflight draft over a valid catalogue fits the output budget, whichever of its references it lists |
| OutputBudget.CompiledFits | src/policynim/source_units.py:219-228 | every compiler draft over a valid catalogue fits the output budget |
| Recognisers.ResolvedUnits | src/policynim/source_units.py:205-217 | a resolved selection gives units of the catalogue without repetition, none only when it says so |
| Recognisers.SelectByName | src/policynim/source_units.py:205-217 | naming units in any order selects them in catalogue order |
| Selections.ResolvesExactly | src/policynim/source_units.py:205-217 | a selection resolves if and only if it is consistent, names none twice and names only units there are |
| Selections.ResolvesTo | src/policynim/source_units.py:205-217 | it resolves to exactly the units it names, each where it stands in the catalogue |
| Selections.CompilerSays | src/policynim/source_units.py:219-228 | a compiler draft over a pinned catalogue quotes the selected documents whole, with the identifiers of all their chunks |
| Selections.PreflightSays | src/policynim/source_units.py:230-249 | a preflight draft over a pinned catalogue names the selected documents, quotes them whole, and refers to all their chunks in order |
| Seqs.UniqueExactly | src/policynim/source_units.py:244-246 | of repeated identifiers each is kept where it occurs first |
| Recognisers.QuotesUnitsExactly | src/policynim/source_units.py:251-285 | the accepted compiler drafts are the materialisations of distinct units with different quotes, in any order |
| Recognisers.StepsQuoteUnits | src/policynim/source_units.py:266-285 | the loop accepts if and only if there are steps, all different, each quoting a unit whole |
| Recognisers.AcceptsCompiler | src/policynim/source_units.py:251-285 | a compiler draft is accepted if and only if it quotes units; the size check never refuses one that does |
| Recognisers.PairUnits | src/policynim/source_units.py:299-317 | pairing statements with guidance finds the units of any selection the draft renders, or shows there is none |
| Recognisers.CompareDrafts | src/policynim/source_units.py:323-329 | equality, or equality up to a duplicate-free subset of the references |
| Recognisers.AcceptsPreflight | src/policynim/source_units.py:287-329 | a preflight draft is accepted if and only if some selection resolves to units it renders, in both modes |
| Selections.AcceptedExactly | src/policynim/source_units.py:287-329 | over a pinned catalogue a preflight draft is accepted if and only if some units, in catalogue order, have just its statements, guidance and references, with some references missing where allowed |
| PinnedSources.ChunkAllPolicies | src/policynim/source_units.py:99-104 | the chunks expected of documents carry exactly those documents' metadata |
| PinnedSources.OwnersDistinct | src/policynim/source_units.py:95-104 | the selected documents own exactly the selected policies, one each |
| PinnedSources.OneDocumentPerPolicy | src/policynim/source_units.py:95-98 | exactly one of all documents owns each selected policy |
| UnitSources.UnitsComeFrom | src/policynim/source_units.py:95-135 | the units are the documents of the selected policies in their order, numbered, whole and unchanged, each the only document of its policy and cited by exactly its own chunks in order |
| UnitSources.FingerprintsOfContext | src/policynim/source_units.py:142-145 | the fingerprints are the context's chunks in the order of their identifiers |
| SourceBinding.CatalogPartition | src/policynim/source_units.py:88-145 | citation lists are nonempty, free of repetition, pairwise disjoint, and together the context's identifiers; one unit per selected policy |
| SourceBinding.BindsExactly | src/policynim/source_units.py:362-385 | the catalogue binds to a context if and only if that is an arrangement of the chunks it was built from |
| Compilation.CompileConstraintList | src/policynim/services/compiler.py:231-257 | the loop compiles all steps or none |
| Chunking.PoliciesApart | src/policynim/ingest/chunking.py:74-83 | documents of different policies never share a chunk identifier |
| PinnedExactly.DistinctInEach | src/policynim/source_units.py:99-104 | among documents of different policies, identifiers are distinct if and only if they are in each document |
| PinnedExactly.CompleteWhenKeysApart | src/policynim/source_units.py:95-104 | a context passes if and only if it arranges all chunks of one document per policy and no document's keys clash |
| PinnedExactly.CompleteIsValid | src/policynim/source_units.py:63-145 | over a complete context of named policies only sizes can be refused: identities, counts, bodies and citation lists are right |
| PinnedExactly.PinnedExactlyWhen | src/policynim/source_units.py:88-145 | a nonempty catalogue results if and only if the context is an arrangement of all chunks of one document per selected policy, with distinct identifiers, named policies and fitting sizes |
| PinnedExactly.OutcomeExactly | src/policynim/source_units.py:88-145 | every other context gives an empty catalogue, unless a selected document cannot be chunked or a complete context is unnamed or too large |
| Chunking.ChunkIdsTrimmed | src/policynim/ingest/chunking.py:74-83 | a chunk identifier has no outer blanks if and only if its policy's identifier does not begin with one |
| Grounding.CitationTrimmed | src/policynim/services/compiler.py:239-241 | stripping leaves a unit's citation identifiers alone if and only if its policy's identifier does not begin with a blank |
| ParsedPolicies.SlugifyPart | src/policynim/ingest/parser.py:944-960 | the loop turns each run of characters that are no letters or digits into one dash, and strips the outer ones |
| ParsedPolicies.RunsShape | src/policynim/ingest/parser.py:944-960 | before stripping, a slug holds only letters and digits of the text and single dashes |
| ParsedPolicies.RunsExactly | src/policynim/ingest/parser.py:944-960 | it keeps every letter and digit, and one dash for every stretch of others, in order |
| ParsedPolicies.DerivedBelow | src/policynim/ingest/parser.py:891-899 | an identifier comes from the path below the folder of policies, part by part |
| ParsedPolicies.PolicyIdTrimmed | src/policynim/ingest/parser.py:891-923 | whether taken from the frontmatter or from the path, a policy identifier is there and has no outer blanks |
| ParsedPolicies.ParsedHeld | src/policynim/services/compiler.py:239-241 | over parsed documents, every arrangement of a pinned context meets the hypothesis of the results about compilation |
| Grounding.QuoteCompiles | src/policynim/services/compiler.py:237-256 | a quoted unit compiles to its whole body, all its citations and its one owning policy if and only if that policy's identifier does not begin with a blank |
| Grounding.MaterializeUnits | src/policynim/services/compiler.py:164-228 | distinct units materialise into exactly their grounded packet, with their concatenated citations |
| Grounding.Compile | src/policynim/services/compiler.py:82-132 | the decision logic of a compilation, for any draft and any later catalogue |
| Grounding.CompilationFailsClosed | src/policynim/services/compiler.py:82-132 | any draft compiles to an insufficient packet or to exactly the packet of distinct whole units it quotes, unless that very packet is too large |
| PacketContents.CompiledPacketSays | src/policynim/services/compiler.py:82-228 | a packet repeats the selection and says nothing, or its steps are the whole documents that the draft quotes, each of a policy of its own, and its citations are those documents' chunks, one document after another |
| PacketContents.CitationLocates | src/policynim/services/compiler.py:281-289 | for a document parsed from a file, a citation names the document's path, policy and title, and line numbers of that file whose lines are the chunk |
| PacketBudget.GroundedFits | src/policynim/services/compiler.py:121-127 | over a pinned catalogue a grounded packet fits whenever the fields it repeats take at most 375 KiB |
| PacketBudget.OnlyEchoRefused | src/policynim/services/compiler.py:82-132 | within that allowance no size is refused: the result is the packet of the quoted units, or an insufficient one |
| Grounding.RestrictedValid | src/policynim/source_units.py:195-203 | the part of a valid catalogue that some policies own is valid |
| RoundTrip.SelectOwned | src/policynim/source_units.py:182-194 | the loop collects the quoted units if every step names its unit's policy alone, and gives up otherwise |
| RoundTrip.RecoveredAuthorised | src/policynim/source_units.py:156-203 | whatever the packet, every recovered unit is the catalogue's own, and some step quotes it whole and names its policy alone |
| RoundTrip.CompiledSources | src/policynim/source_units.py:156-203 | the catalogue recovered from a packet, or an empty one; recovery never fails |
| RoundTrip.HonestCompiledAccepted | src/policynim/source_units.py:219-285 | over a pinned catalogue every honest compiler draft is accepted and its quotes name exactly its units |
| RoundTrip.RestrictedToResolved | src/policynim/source_units.py:195-217 | the owners of resolved units own no other unit |
| RoundTrip.SelectionRoundTrip | src/policynim/source_units.py:156-228 | selection, draft, packet, recovery: the resolved units in catalogue order, with their policies' fingerprints |
| RoundTrip.RecoveredPreflightAccepted | src/policynim/source_units.py:156-329 | the recovered catalogue is valid and accepts the preflight draft over all it holds |
| Witness.NotePinned | src/policynim/source_units.py:88-145 | a one-line document with its one chunk makes a catalogue, under any policy identifier of up to 100 characters |
| Witness.NoteHeld | src/policynim/source_units.py:88-145 | some document and context meet every hypothesis of the results about compilation |
| Witness.BlankPolicyLosesCitation | src/policynim/services/compiler.py:237-256 | a pinned document of the policy ` P` has a quote that compiles to nothing |
| RateLimiter.LiveTrims | src/policynim/interfaces/mcp.py:338-342 | filtering a sorted list by age cuts off its front |
| RateLimiter.TrimmedLive | src/policynim/interfaces/mcp.py:338-342 | cutting expired times off loses nothing that is live |
| RateLimiter.TracksDrop | src/policynim/interfaces/mcp.py:333-337 | evicting an expired first key loses nothing that matters |
| RateLimiter.CleanKeys | src/policynim/interfaces/mcp.py:332-337 | once the first key is live, a key is kept if and only if it has a live accepted attempt |
| RateLimiter.TracksAccept | src/policynim/interfaces/mcp.py:346-348 | storing an accepted attempt and moving its key to the end keeps keys ordered by last accepted attempt, and lists nonempty and within the limit |
| RateLimiter.TracksRefuse | src/policynim/interfaces/mcp.py:343-345 | a refusal moves no key and loses only expired times |
| RateLimiter.JudgedByIndex | src/policynim/interfaces/mcp.py:338-345 | counting the stored list is counting the log |
| RateLimiter.AcceptancesSpread | src/policynim/interfaces/mcp.py:329-349 | of any limit + 1 successive acceptances of a key, the last is at least a window younger than the first |
| RateLimiter.WindowNeverOverfull | src/policynim/interfaces/mcp.py:329-349 | no window, wherever it is placed, holds more acceptances of a key than the limit |
| RateLimiter.LiveCounted | src/policynim/interfaces/mcp.py:338-343 | as many accepted attempts are live as there are accepted calls for the key younger than the window |
| RateLimiter.BetweenCounted | src/policynim/interfaces/mcp.py:329-349 | a window holds as many acceptances as there are accepted calls for the key in it |
| RateLimiter.InMemoryRateLimiter.constructor | src/policynim/interfaces/mcp.py:324-327 | a new limiter has an empty log |
| RateLimiter.InMemoryRateLimiter.Allow | src/policynim/interfaces/mcp.py:329-349 | an attempt is accepted if and only if fewer than the limit of accepted attempts for its key are younger than the window; afterwards just the keys with such an attempt are kept; the call fails if and only if the limit is not positive and a call was answered before |
| RateLimiter.InMemoryRateLimiter.DropExpired | src/policynim/interfaces/mcp.py:333-337 | stopping at the first live key has removed every expired one; an empty list is met if and only if the limit is not positive and a call was answered |
| RateLimiter.InMemoryRateLimiter.Reset | src/policynim/interfaces/mcp.py:351-353 | everything is forgotten |
| RateLimiter.InMemoryRateLimiter.NoWindowOverfull | src/policynim/interfaces/mcp.py:329-349 | in every state of a limiter, no window of time holds more acceptances of a key than the limit |
| SyncWait.RunSyncUntilComplete | src/policynim/interfaces/mcp.py:164-195 | the wait ends at the first wake that finds the worker done and at no other, signals once if its first await is cancelled, and a wait once cancelled never returns a value |
| Executor.ToolExecutor.constructor | src/policynim/interfaces/mcp.py:201-217 | an idle executor, drained and without a semaphore |
| Executor.ToolExecutor.Enter | src/policynim/interfaces/mcp.py:237-260 | admission or the reason for refusing, and the state after it |
| Executor.ToolExecutor.Leave | src/policynim/interfaces/mcp.py:291-301 | the state after a slot is given back |
| Executor.ToolExecutor.BeginClose | src/policynim/interfaces/mcp.py:305-308 | closed, with every budget in flight signalled |
| Executor.ToolExecutor.Signal | src/policynim/interfaces/mcp.py:287-289 | a cancellation sets the budget's event and changes nothing else |
| CallStages.OthersLeaveCall | src/policynim/interfaces/mcp.py:219-318 | no step of another call or of a closer touches a call's stage or worker |
| CallStages.CallLives | src/policynim/interfaces/mcp.py:219-318 | in every continuation of every run, a call in flight is what its own steps alone make of it, and is signalled only by its first cancellation or a closer |
| CallStages.WakesDriveCall | src/policynim/interfaces/mcp.py:174-195 | in every run whose steps of one call are those of a wait, with any others in between, the call ends up exactly where the wait ends, signalled if and only if the first wake is an interruption or a closer signalled it |
| CallStages.NotBeforeDone | src/policynim/interfaces/mcp.py:182-188 | however often it is cancelled and whatever else goes on, a call keeps its slot and cannot go on until its worker is done |
| CallStages.WaitRuns | src/policynim/interfaces/mcp.py:174-195 | the executor enables every step of every wait |
| ExecutorRuns.StepKeeps | src/policynim/interfaces/mcp.py:219-318 | no step of any call, worker, cancellation or closer breaks the executor or its invariant |
| ExecutorRuns.EveryRunSafe | src/policynim/interfaces/mcp.py:219-318 | over every interleaving: permits plus budgets in flight are the capacity, counters are exact, positive and within the limit, drained means nothing in flight |
| ExecutorRuns.AdmittedExactly | src/policynim/interfaces/mcp.py:237-260 | in every state of every run, a call is admitted if and only if no close has begun, its principal has fewer calls in flight than its limit, and the server fewer than its capacity; otherwise it is told the first of these that fails |
| ExecutorRuns.ReleasedOnce | src/policynim/interfaces/mcp.py:286-301 | a slot is released at most once, exactly once by the time its call is done, and only after its worker ended |
| ExecutorRuns.NoneAdmittedAfterClose | src/policynim/interfaces/mcp.py:237-308 | once close has begun, calls in flight only dwindle and every later call is refused |
| ExecutorRuns.CloseSignalsAll | src/policynim/interfaces/mcp.py:305-308 | once close has begun, every call in flight has been signalled |
| ExecutorRuns.ClientsClosedForGood | src/policynim/interfaces/mcp.py:303-318 | clients are closed only with nothing in flight, and nothing is in flight in any continuation |
| ExecutorRuns.EveryRunDrains | src/policynim/interfaces/mcp.py:286-301 | from every state of every run, letting the workers end returns every slot in at most three steps a call |
| ExecutorRuns.EveryCloseCompletes | src/policynim/interfaces/mcp.py:303-318 | once a closer has begun, workers, waiting tasks and that closer alone can bring the run to closed clients, with nothing in flight |
| ExecutorRuns.LeaveUndoesEnter | src/policynim/interfaces/mcp.py:237-301 | leaving right after entering restores permits, budgets, counters and the drained event |
| Budget.OperationBudget.Create | src/policynim/operations.py:48-69 | a deadline so many seconds ahead and counters at zero, or a refusal, exactly when the seconds or the call budget are not positive |
| Budget.OperationBudget.Remaining | src/policynim/operations.py:111-123 | positive time left at the moment of asking, or why there is none |
| Budget.OperationBudget.RecordUsage | src/policynim/operations.py:100-109 | a callback that returns has stored the counters; one that fails has or has not |
| Budget.OperationBudget.ReserveProviderCall | src/policynim/operations.py:71-91 | success reserves one call beyond those sent and stored; failure restores the counters, and the stored attempts still cover every send |
| Budget.OperationBudget.RecordProviderUsage | src/policynim/operations.py:93-98 | measured calls are the attempts less the unavailable ones, and tokens their sum, even when the callback fails |
| Budget.OperationBudget.Wait | src/policynim/operations.py:125-133 | a wait is refused unless shorter than the time left, and cut short only by a cancellation |
| Retry.OnlyTransientGoesOn | src/policynim/providers/nvidia.py:741-797 | only 429, 5xx, timeout and connection failures lead to another send |
| Retry.RetryAfterSeconds | src/policynim/providers/nvidia.py:832-848 | a requested delay is never negative |
| Retry.Attempt | src/policynim/providers/nvidia.py:732-740 | one send; a validated response is returned only before the deadline and uncancelled |
| Retry.SendOnce | src/policynim/providers/nvidia.py:727-808 | reserve, send and record, whatever is raised |
| Retry.Jittered | src/policynim/providers/nvidia.py:816-817 | the delay lies in the upper half of the capped exponential one |
| Retry.ExponentialGrows | src/policynim/providers/nvidia.py:816-816 | the delay starts at the configured one and doubles up to the thirtieth attempt, never beyond the cap |
| Retry.RefuseDelay | src/policynim/providers/nvidia.py:820-826 | a delay above the cap is never waited for |
| Retry.Pace | src/policynim/providers/nvidia.py:741-828 | after a failed send, the loop gives up with the right failure, or goes on only once a wait within all bounds has elapsed |
| Retry.DelayRespected | src/policynim/providers/nvidia.py:815-828 | no send follows a failed one sooner than the provider asked, nor sooner than half the capped exponential delay |
| Retry.RequestedDelay | src/policynim/providers/nvidia.py:815-848 | after a failure whose header asks for a delay in seconds or by date, no send follows sooner, and none at all if the delay is above the cap |
| Retry.WaitBounds | src/policynim/providers/nvidia.py:816-828 | a wait lies in the upper half of the exponential delay, or is exactly the longer one that the header asks for |
| Retry.SendsBounded | src/policynim/providers/nvidia.py:726-829 | sends number at most the retries plus one |
| Retry.EndsInTime | src/policynim/providers/nvidia.py:727-828 | if sends and waits last no longer than they ask, all end by the deadline plus the lag with which they start |
| Retry.RequestWithRetry | src/policynim/providers/nvidia.py:712-829 | over every sequence of outcomes: sends and waits alternate within every bound, each wait before a send has elapsed, each send is given what is left of the time, the counters account for the sends, and the last send explains the outcome |
| Retry.FinalFailure | src/policynim/providers/nvidia.py:741-826 | the last send's failure names the request's failure, status by status, unless the budget ends it or attempts run out |
| Redaction.CaptureHides | scripts/verify_installed_package.py:154-161 | the bounded capture sees the same hidden bytes in the tail as the whole file |
| Redaction.CaptureShows | scripts/verify_installed_package.py:154-161 | the tail reads the same from the capture as from the file |
| Redaction.FindOccurrences | scripts/verify_installed_package.py:164-167 | the find loop lists exactly the occurrences of a value, overlapping ones included |
| Redaction.AllOccurrences | scripts/verify_installed_package.py:162-167 | exactly the occurrences of all values |
| Redaction.Overlap | scripts/verify_installed_package.py:154 | the length of the longest value |
| Redaction.ShownExactly | scripts/verify_installed_package.py:168-176 | a view holds every byte that lies in no occurrence, in order, and one gap for each stretch of others |
| Redaction.Redact | scripts/verify_installed_package.py:162-176 | the cursor loop emits exactly the bytes in no occurrence, in order, with a gap where some were taken out |
| Redaction.ReadDiagnostic | scripts/verify_installed_package.py:147-176 | unless a value is too long, the last 16000 bytes less every occurrence of a value anywhere in the file |
| Interruptions.StaysInside | src/policynim/operations.py:297-311 | a set closed under links holds everything reachable |
| Interruptions.ContextFirst | src/policynim/operations.py:300-310 | an ordinary error's context is searched before its cause |
| Interruptions.InterruptionInChain | src/policynim/operations.py:297-311 | the search ends on every graph, cyclic ones included, finds an interruption if and only if one is reachable, and finds the first to be met depth first with contexts before causes |
| RuntimeRules.DraftSpans | src/policynim/ingest/parser.py:373-483 | read line by line, rules' spans lie apart and in order, begin at their openers, and leave only skipped lines between |
| RuleFields.HeadExactly | src/policynim/ingest/parser.py:486-558 | a field is one of six keys, a colon and a value, or one of three keys, a colon and a list to follow |
| RuleFields.SkippedExactly | src/policynim/ingest/parser.py:382-387 | the skipped lines are the blank ones and those whose first other character is a hash mark |
| RuleFields.ItemExactly | src/policynim/ingest/parser.py:574-583 | an item is six spaces, a dash, a space and its text, stripped |
| RuleFields.ListOpenExactly | src/policynim/ingest/parser.py:561-601 | an item may stand on a line if and only if some line above awaits a list and only items and skipped lines lie between |
| RuleFields.ItemsListed | src/policynim/ingest/parser.py:561-601 | a list's items are those of the item lines up to the first other line with content, in order |
| RuleFields.RuleHasFields | src/policynim/ingest/parser.py:403-483 | an accepted rule has a field with a value if and only if a line of its span gives it |
| RuleParsers.ParseMatcherList | src/policynim/ingest/parser.py:561-601 | the items up to the line that ends the list, or the line that breaks it |
| RuleParsers.ConsumeField | src/policynim/ingest/parser.py:486-558 | a field with its value, or the line that breaks it |
| RuleParsers.ParseRule | src/policynim/ingest/parser.py:403-483 | the next rule of the block's reading, or proof that the block is not well formed |
| RuleParsers.ParseRuntimeRules | src/policynim/ingest/parser.py:373-400 | a block is accepted if and only if it is well formed, and gives the rules of its line-by-line reading; a refusal points into the block |
| RuleSpans.RulesInPlace | src/policynim/ingest/parser.py:373-483 | spans are strictly increasing and disjoint, begin at their own opener and end at a key or an item |
| RuleSpans.EveryLineInOneRule | src/policynim/ingest/parser.py:373-483 | in an accepted block every line with content lies in exactly one rule's span |
| RuleSpans.FrontmatterInFile | src/policynim/ingest/parser.py:757-759 | a frontmatter line number is that line's number in the file |
| RuleSpans.RulesInFile | src/policynim/ingest/parser.py:460-471 | a rule's span, read in the original file, begins at its opener and ends at a key or an item |

## Left out

- SelectionRoundTrip: asks that no policy identifier begins with a blank, because `_compile_constraint_list` strips
  citation identifiers; by QuoteCompiles it is false without, and by ParsedHeld all parsed documents satisfy it.
- CompilationFailsClosed: asks the same of policy identifiers, for the same reason.
- MaterializeUnits: asks the same of policy identifiers, for the same reason.
- PolicyIdTrimmed: takes Unicode's case and letter tables as functions about which it assumes only that letters and
  digits are no blanks and that their upper cases hold none, and the path already split into its parts.
- EndsInTime: bounds the end of a send by the deadline plus the time between reading the clock and starting the send,
  because the source reads the clock first; without that lag the bound is the deadline.
- RetryAfterSeconds: takes the header already parsed into a number, a date or neither.
- ReadDiagnostic: ends before decoding and the final `safe_diagnostic` pass over the decoded text.
- ParseRuntimeRules: takes the normalisation of inline values and list items, and the validation of a finished rule,
  as arbitrary functions; the error texts are not part of this model.
- RunSyncUntilComplete: takes the wakes of the awaiting task and the worker's end as inputs.
- WakesDriveCall: in the state machine a worker's thread and its task end together; a worker task that is itself
  cancelled while its thread still runs is a case of RunSyncUntilComplete only.
- Allow: uses real numbers where the source has floating-point seconds.
- Line separators other than `\n`, and byte-order marks.
- The other frontmatter keys, their scalars and lists, and the metadata inferred from paths and headings.
- The `parser` argument of `chunk_policy_document`: sections come from the chunker's own extraction.
- The Markdown tokenizer: the headings it reports are an input.
- Provenance and chunk fingerprints as JSON text: both stand for the values they serialise.
- Pydantic validation of drafts, packets and settings.
- Routing, held snapshots and generation identifiers: the context and the catalogues resolved for it are inputs, and a
  packet's generation identifier counts among the fields it repeats.
- Hosted usage accounting inside the executor's worker, and what a worker does beyond ending.
- Exactly when cancellations and clock readings occur: they may occur at every step.
- Operation scopes, stage events, close precedence, exception diagnostics, network clients, OAuth, the portal and the
  command line.
