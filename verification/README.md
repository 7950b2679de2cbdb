# Verified models of the session maintenance engine

The engine keeps one canonical history per conversation (MCSF v1 events) and projects it into the native logs of DSH
runtimes. This project models the parts of it whose mistakes would lose or reorder a conversation:

- **The portable projection compiler** (`Canonical`, `CoordinateRuns`, `OtherGroups`, `PortableEmission` …
  `Materialize`). Canonical events carry turn and step coordinates; the compiler groups them, pairs calls with results,
  pushes bracketed drafts, sorts them, renumbers them and relocates their references. `SessionInvariants` is the
  independent acceptance test of the target language. The compiler is proved equal to a streaming emission in canonical
  order; from that follow acceptance, conservation of the transcript, coverage of every event and resolution of every
  anchor. `PortableRows` and `PortableReferences` say what each row shows in terms of the events alone, and
  `SessionLifecycles` what is accepted. `PortableContents`, `PortableLinks`, `PortableMessages` and `PortableVerdict`
  say in the same terms which histories are compiled.
- **The topology planner** (`TopologyPlanner`, `TopologyListing`, `TopologyReasons`, `TopologyVerdict`,
  `TopologyPlacing`, `TopologyReport`, `TopologyCorrelation`, `TopologyOutline`, `TopologyBrought`, `TopologySteps`,
  `SteeringCrossing`, `PlannedProjection`, `PlannedAgain`, `MixedTurn`, `SteeredCall`), which supplies the coordinates:
  plans it calls eligible satisfy the hypothesis under which the compiler's output is accepted, and one pass over the
  input decides whether the compiler collects the turns and steps it writes.
- **Native relocation and capture** (`NativeRelocation`, `NativeShown`, `NativeVerdict`, `NativeRoundTrip`,
  `PortableCapture`, `CapturedContent`, `CaptureProjection`).
- **Crash recovery** (`ExactJson`, `ZstdFrames`, `RuntimeArtifact`, `StoredRecords`, `ArtifactContent`, `ArtifactPaths`,
  `RuntimeAppend`, `RuntimeBridge`, `RuntimeRecovery`, `RecoveryVerdict`): Zstandard frames (section 3.1.1 of RFC 8878)
  to lines to rows to events, the recovered tail, and the idempotent append that receives it.
- **Project-mapping reconciliation** (`DerivationClosure`, `RetargetCycles`, `ProjectMapping`, `MappingTheorems`,
  `AliasChains`, `ReconciledTables`) with user deletion and restoration as interleaved steps on the database tables.
- **Incremental import and polling** (`ImportCache`, `ProjectObserver`, `ObserverReports`) as interleaving protocols,
  and the fork boundary of derived conversations (`ForkBoundary`).
- **The Codex front end** (`Lines`, `CodexParser`, `RolloutText`, `CodexNormalizer`, `RolloutEvents`), with what the
  planner makes of its events (`NormalizedHistories`).

Code that changes state is imperative here too: classes for the bridge, the projection, the database, the observer and
the turn assignment; loops over the same accumulators elsewhere. Each is proved equal to a function of its inputs or of
the old state, and the laws are lemmas about those functions: many say what the function gives in terms of the fields of
its input and output alone, in both directions, without the function's own parts. A method that throws returns `Err`,
and its contract says exactly when. The modules form no cycle; `dafny verify dfyconfig.toml` checks everything.

Some properties do not hold outright; for these the exact condition is proved, with an input on which it fails:

- Portable output is accepted if and only if every matched call precedes its result (`PortableOutputAccepted`). A pair
  in the other order is compiled and refused (`ReversedPairIsRefused`); matching looks at uniqueness and coordinates
  only.
- Streaming parse agrees with whole-buffer parse if and only if no chunk boundary falls behind an unfinished line longer
  than the limit (`StreamAgreesWithWhole`); a line of exactly the limit followed by CR LF parses or fails depending on
  where the chunk ends (`ChunkingMattersAtTheLimit`). The whole-buffer parser also counts the empty line after the last
  newline against the line limit, which the streaming parser does not.
- Capturing rows in portable mode and converting a natively captured history give the same events if and only if no
  conversation row lacks a required field (`CapturesAgree`); a call row without a call identity parts them
  (`NamelessCallDiffers`).
- The pass bound of retargeting settles every assignment of projects if and only if no cycle of kept derivations has two
  rows listed before the rows of their parents (`PassBoundSettles`). The table's primary key gives each child one parent
  and its check excludes self-derivation; acyclicity, which the schema does not give, is the usual case
  (`ForestHasNoCycle`, `RetargetConverges`). One cycle of three settles in one listing and need not in another
  (`ListingDecides`).
- Two working directories share a project directory if and only if their folded names agree as far as the directory
  shows them (`KeysDecide`): `a/b` and `a-b` do (`ProjectsCollide`). Absolute paths with single slashes and without
  dashes, backslashes and colons that fit the limit are told apart, except for `/` and `/root` (`CleanPathsApart`).
- `exactJson` prints minus zero as zero and an overflowing number as null, so `sameJson` decides structural equality up
  to those and exactly without them (`SameJsonDecides`, `FaithfulStrict`, `UnfaithfulNumbers`).
- The compiler collects the turns and steps that an eligible plan writes if and only if the history comes in sequence
  (`EligiblePlansAreCollectedExactly`): each event lands at the last turn met or at the next ordinal under an identity
  not met, and each model event likewise at a step of its turn. The check is one pass over the input. For eligible plans
  it needs only the ordinals of what events bring (`EligibleNeedsBroughtOrdinals`, `EligibleNeedsModelSteps`). A turn
  with steps of both kinds is in sequence or not depending on the ordinal brought (`MixedTurnExactly`); a lone answer
  with a later step or a later turn is eligible and refused as well (`LateAnswersAreRefused`). Turns left to the
  planner, and histories left to it altogether, are always in sequence (`PlannedStepsAreNumbered`,
  `UntoldHistoriesArePlannable`); a normalized rollout is if and only if it returns to no earlier turn
  (`NormalizedComeInSequence`).
- A planned step of a turn left to the planner crosses a user message, which the compiler refuses, if and only if the
  message came while a call of the step was outstanding and the step went on after it (`FreeTurnCrossesExactly`). An
  eligible history in which it did is refused (`SteeredCallIsRefused`).
- A second reconciliation renames no membership, whatever the tables, if and only if no aliased project ends up in an
  aliased one (`SettlingExactly`); a chain of aliases does or does not settle depending on its listing (`ChainsDiffer`).
  A narrow selection that renames a project of the wide one is not undone by widening (`RenamingNarrowLoses`).
- A deletion with writes pending remembers no workspace: restoring from it gives the workspace back if and only if no
  older tombstone of the session remembers another one (`HideThenRestore`).
- A history is eligible if and only if its phases, coordinates and calls are in order (`EligibleExactly`); each defect
  has its code (`CodesExactly`).

## Model

| member | source | states |
|---|---|---|
| PortableTheorems.PortableOutputAccepted | packages/adapter-dsh-rc1/src/materialize.ts:832-1108 | Whenever the portable compiler returns, its rows pass the session acceptance test exactly when every uniquely matched same-step call precedes its result |
| PortableTheorems.ResultNamesItsCall | packages/adapter-dsh-rc1/src/materialize.ts:1065-1107 | Every emitted tool/result has one provenance entry, the position of the only tool/call row with the identifier it answers; that position is earlier when calls precede results |
| PortableTheorems.ToolRowOrigin | packages/adapter-dsh-rc1/src/materialize.ts:1003-1083 | A tool/call or tool/result row arises only from a matched call or result of that step |
| PortableTheorems.CallRowsUnique | packages/adapter-dsh-rc1/src/materialize.ts:852-859 | No call identifier occurs in two tool/call rows |
| ReversedPair.ReversedPairIsRefused | packages/adapter-dsh-rc1/src/materialize.ts:852-859 | A concrete history with a result before its call is compiled without error and its output is refused |
| PortableAcceptance.StreamAccepted | packages/adapter-dsh-rc1/src/inspect.ts:66-141 | The lifecycle automaton accepts the streaming emission exactly when calls precede results |
| PortableAcceptance.CallInStep | packages/adapter-dsh-rc1/src/materialize.ts:564-568 | The call that answers a matched result is a member of the same step |
| PortableAcceptance.PendingMeansEarlier | packages/adapter-dsh-rc1/src/inspect.ts:108-135 | While a step runs, a result's call is pending exactly when it came earlier in the step and was not answered |
| SessionInvariants.AssertSessionInvariants | packages/adapter-dsh-rc1/src/inspect.ts:66-141 | One pass over the rows returns without error exactly on strictly numbered rows with nested turn, step and tool lifecycles |
| SessionLifecycles.AcceptedExactly | packages/adapter-dsh-rc1/src/inspect.ts:66-141 | A session is accepted exactly if its sequences increase and every row is lawful by the rows before it: turns and steps are numbered from one and nest, what is written in a step names it, calls have a name, and results answer a waiting call of their step |
| PortableTranscript.TranscriptPreserved | packages/adapter-dsh-rc1/src/materialize.ts:832-1108 | The user messages and assistant blocks of the output, in order, are the canonical user, reasoning, assistant and matched-call blocks in canonical order |
| PortableTranscript.PrefixSays | packages/adapter-dsh-rc1/src/materialize.ts:959-1001 | At any point of a turn the output is ahead of the canonical order by exactly the blocks of the step message already written |
| PortableTranscript.NothingOwedAtUser | packages/adapter-dsh-rc1/src/materialize.ts:972-977 | The steering check leaves nothing written ahead of a user message |
| PortableCoverage.EveryEventRepresented | packages/adapter-dsh-rc1/src/materialize.ts:900-1066 | Every canonical event is the origin of some row, except exactly the reasoning and assistant events of a step whose explicit content is empty |
| PortableRows.RowsMirrorEvents | packages/adapter-dsh-rc1/src/materialize.ts:900-1107 | The rows of each type, in order, are those of exactly the events that call for one, in canonical order, and show what these hold: time, turn and step numbers, identities, content, source, reasons of what could not be paired, stored envelopes and groups |
| PortableRows.ToolResultsShown | packages/adapter-dsh-rc1/src/materialize.ts:1026-1047 | The tool/result rows, in order, are the paired results in canonical order, each with one block of the call's identity, the output text or nothing, and the failure mark |
| PortableRows.ToolCallsShown | packages/adapter-dsh-rc1/src/materialize.ts:998-1024 | The tool/call rows, in order, are the paired calls in canonical order, each with its identity, name and arguments, and with the block of the same call in the message row of its step |
| PortableRows.MatchedIsPaired | packages/adapter-dsh-rc1/src/materialize.ts:840-859 | A call or result is matched exactly if it and one event of the other kind are the only ones of their identity and share turn and step |
| PortableRows.MessageBlocksAre | packages/adapter-dsh-rc1/src/materialize.ts:214-235 | A message says its own blocks, or else its text followed by its attachments, and never nothing |
| PortableRows.OwnBlocksAre | packages/adapter-dsh-rc1/src/materialize.ts:570-625 | What each event contributes to the message of its step: reasoning with its texts as reasoning, assistant blocks as they are, and one block of a paired call |
| PortableReferences.StoredReferencesFollow | packages/adapter-dsh-rc1/src/materialize.ts:1072-1107 | The row of a stored record names the events that the record named, each at the first row that represents it, in its provenance and in the range it replaces |
| PortableMaterialize.MaterializePortable | packages/adapter-dsh-rc1/src/materialize.ts:832-1108 | The compiler, with its maps, pushes, sort and relocation, returns exactly on compilable histories, and then the relocated stream and its alias table |
| PortableVerdict.CompilableExactly | packages/adapter-dsh-rc1/src/materialize.ts:647-1107 | Which histories are compiled, stated on the events alone: turns and the steps of each keep the coordinate before them or move to the next ordinal under a new identity, reasoning is textual, messages hold no tool blocks, paired calls are complete and identified, no user message comes between two events of one message, no anchor leads to two messages, and stored provenance names events that are shown |
| PortableVerdict.ProjectedExactly | packages/adapter-dsh-rc1/src/materialize.ts:1110-1145 | A portable history is projected exactly if it brings no native envelope, readable provenance, and what compilation needs |
| PortableContents.NumberedExactly | packages/adapter-dsh-rc1/src/materialize.ts:662-743 | Collected groups are numbered exactly if each entry keeps the coordinate before it or moves on to the next one under an identity not used before |
| PortableContents.ContentsExactly | packages/adapter-dsh-rc1/src/materialize.ts:570-625 | All steps can be written exactly if reasoning is textual, messages hold no tool blocks, paired calls have a name and arguments, and no user message comes within a message |
| PortableMessages.MessagesExactly | packages/adapter-dsh-rc1/src/materialize.ts:865-898 | The pushes succeed exactly if every message has a name and no event identity, historical message identity or name leads to two messages |
| PortableLinks.RelocatableExactly | packages/adapter-dsh-rc1/src/materialize.ts:1065-1107 | Every reference finds its row exactly if paired results carry an identity that is not blank and stored provenance names events that are shown |
| PortableMaterialize.ValidateCanonicalSequence | packages/adapter-dsh-rc1/src/materialize.ts:647-660 | Passes exactly histories with nonnegative strictly increasing sequences and distinct identities |
| PortableMaterialize.MatchTools | packages/adapter-dsh-rc1/src/materialize.ts:840-859 | The matched identifiers are exactly those with one call and one result at the same coordinates |
| PortableMaterialize.WriteBlocks | packages/adapter-dsh-rc1/src/materialize.ts:594-625 | One event writes its own blocks, or fails exactly on a reasoning block without text, an embedded tool block, or a call without its identity, name or arguments |
| PortableMaterialize.AssistantContentBlocks | packages/adapter-dsh-rc1/src/materialize.ts:594-625 | The blocks of the step message are those of its events in order |
| PortableMaterialize.PushStep | packages/adapter-dsh-rc1/src/materialize.ts:944-1055 | One step pushes its bracket, its message and its tool rows, and fails exactly at an unwritable block, a crossed steering message or an ambiguous anchor |
| PortableMaterialize.PushEverything | packages/adapter-dsh-rc1/src/materialize.ts:900-1066 | All pushes succeed exactly when every event is readable, every turn plannable and every anchor unambiguous |
| PortableOrder.PushesRearranged | packages/adapter-dsh-rc1/src/materialize.ts:900-1066 | What the loops push is, up to order, what one pass over the events in canonical order emits |
| PortableOrder.StreamOrdered | packages/adapter-dsh-rc1/src/materialize.ts:1061-1063 | The streaming emission is strictly ordered by source sequence and rank |
| PortableOrder.SortedPushesAreStream | packages/adapter-dsh-rc1/src/materialize.ts:1061-1063 | Sorting the pushes by source sequence, rank and insertion order gives the streaming emission |
| Sorting.SortOrdered | packages/adapter-dsh-rc1/src/materialize.ts:1061-1063 | The sort puts any list in order under a total comparison |
| Sorting.SortedPermutation | packages/adapter-dsh-rc1/src/materialize.ts:1061-1063 | An arrangement that contradicts no strict order is the ordered arrangement of the same items |
| CoordinateRuns.CollectGroups | packages/adapter-dsh-rc1/src/materialize.ts:662-743 | Grouping by coordinates through hash tables, sorting by ordinal and checking density and contiguity succeeds exactly when the consecutive runs of equal coordinates are numbered from zero with distinct identities, and returns those runs |
| CoordinateRuns.NumberedRunsAreSorted | packages/adapter-dsh-rc1/src/materialize.ts:690-703 | Sorting the tabulated groups of numbered runs by ordinal gives the runs |
| CoordinateRuns.RunsFlatten | packages/adapter-dsh-rc1/src/materialize.ts:662-704 | Concatenating the groups gives the events back |
| CoordinateRuns.RunsOfFlatten | packages/adapter-dsh-rc1/src/materialize.ts:662-704 | Homogeneous groups with differing neighbours are the runs of their concatenation |
| CoordinateRuns.RunsSeparated | packages/adapter-dsh-rc1/src/materialize.ts:706-743 | Every member of an earlier group precedes every member of a later one |
| OtherGroups.CollectPortableOtherGroups | packages/adapter-dsh-rc1/src/materialize.ts:745-785 | The loop over open groups and its final sort give the groups of the fold |
| OtherGroups.GroupsPartition | packages/adapter-dsh-rc1/src/materialize.ts:745-785 | The groups hold each other event exactly once and nothing else |
| OtherGroups.GroupsLed | packages/adapter-dsh-rc1/src/materialize.ts:745-785 | Groups are nonempty and come in the order of their first events |
| OtherGroups.GroupsJoin | packages/adapter-dsh-rc1/src/materialize.ts:745-785 | Two other events share a group exactly when one turn encloses both, or none encloses either and only such events lie between them |
| PortableRelocation.IndexDrafts | packages/adapter-dsh-rc1/src/materialize.ts:1065-1075 | The tables hold the first draft that represents each origin and the last tool/call draft of each identifier |
| PortableRelocation.RelocateDrafts | packages/adapter-dsh-rc1/src/materialize.ts:1077-1107 | Relocation fails exactly when a reference has no materialized target, and otherwise moves every reference by the tables |
| Provenance.DecodeSourceEventSeqs | packages/adapter-dsh-rc1/src/materialize.ts:95-122 | Stored ranges decode, with the same failures, to the increasing sequences they stand for |
| PortableAnchors.PushedMessages | packages/adapter-dsh-rc1/src/materialize.ts:880-892 | After successful pushes the message identities are distinct and exactly the reserved ones |
| PortableAnchors.PushedAnchors | packages/adapter-dsh-rc1/src/materialize.ts:865-898 | The alias table sends exactly the anchors of the pushed messages, each to its own message |
| AnchorResolution.ResolveAnchorByScan | packages/adapter-dsh-rc1/src/references.ts:48-69 | The scan that counts matches resolves an anchor exactly when one message row carries its target and the alias hides no real message |
| AnchorResolution.ResolveAnchorExactly | packages/adapter-dsh-rc1/src/references.ts:48-69 | An anchor resolves exactly to its alias, or without one to itself, where a single message has that identity and no message has the identity of an anchor that is sent elsewhere |
| AnchorResolution.ResolveRc1Reference | packages/adapter-dsh-rc1/src/references.ts:16-75 | Resolution of a reference, with every reason for being unavailable |
| AnchorResolution.ReferenceExactly | packages/adapter-dsh-rc1/src/references.ts:16-75 | A reference resolves exactly to the session it names or derives, if a reader finds that session under its own header and logical identity, and to the message of its anchor; without a reader only a reference without anchor resolves |
| AnchorResolution.MessageIsUnique | packages/adapter-dsh-rc1/src/materialize.ts:884-890 | Every emitted message has a usable identity that exactly one row carries |
| AnchorResolution.AnchorResolves | packages/adapter-dsh-rc1/src/references.ts:48-69 | Resolving any anchor of an emitted message returns that message |
| AnchorResolution.ContributorsResolve | packages/adapter-dsh-rc1/src/materialize.ts:862-907 | For each event that contributed to a message, its identity and its historical message identity resolve to that message, and the message's own identity resolves to itself |
| Materialize.MaterializeEvents | packages/adapter-dsh-rc1/src/materialize.ts:1110-1145 | The entry point chooses portable or native projection, refuses mixtures and returns exactly on projectable histories |
| Materialize.PortableProjectionCorrect | packages/adapter-dsh-rc1/src/materialize.ts:1110-1145 | For whatever the entry point projects portably, acceptance holds exactly when calls precede results, and the transcript is preserved |
| TopologyPlanner.WithPlannedConversationTopology | packages/session-domain/src/conversation-topology.ts:168-439 | The planner returns the events with the topology planned for their identity, the last one for a repeated identity, and a plan with entries, listing, reasons and diagnostics |
| TopologyVerdict.EligibleExactly | packages/session-domain/src/conversation-topology.ts:168-393 | A history is eligible exactly if the phases it brings match the kinds, planned turns and steps and their ordinals determine each other, calls and results have identities of their own, and each call has its one result later at the same turn and step |
| TopologyVerdict.CodesExactly | packages/session-domain/src/conversation-topology.ts:196-365 | An event of a plan gets each code exactly for its own defect: a wrong phase, a turn or step that contradicts the first event to use it, a call or result without identity or of a repeated one, or a result away from its call |
| TopologyVerdict.UnclosedExactly | packages/session-domain/src/conversation-topology.ts:370-372 | A call is reported open exactly if no result after the first call of its identity answers it |
| TopologyPlacing.PlacedExactly | packages/session-domain/src/conversation-topology.ts:196-262 | Where each event goes: to the coordinates it brings, to the step before it in its turn, to the next step after all calls of the step before were answered or a user message follows model work without outstanding calls, or to a new turn above all turns before |
| TopologyReasons.EntriesArePlanned | packages/session-domain/src/conversation-topology.ts:311-316 | The plan has one entry for each conversation event, in order, with the topology that the event is given |
| TopologyReasons.ReasonsDecide | packages/session-domain/src/conversation-topology.ts:370-393 | A plan gives no reason exactly when it is eligible |
| TopologyReasons.NotedCodes | packages/session-domain/src/conversation-topology.ts:196-365 | The reasons noted on the way have the codes of the issues met, in order |
| TopologyReasons.ReasonsNameEvents | packages/session-domain/src/conversation-topology.ts:155-161 | Every event that a reason names is one of the history |
| TopologyReasons.OpenCallsAreOpen | packages/session-domain/src/conversation-topology.ts:370-372 | Every call reported open is a call of the history that no later result answers |
| TopologyReasons.MisplacedIsBlamedWithItsCall | packages/session-domain/src/conversation-topology.ts:362-363 | A result away from its call is blamed together with the one event of that call |
| TopologyPlanner.AppliedIsPlanned | packages/session-domain/src/conversation-topology.ts:418-437 | With distinct identities every event gets the topology planned at its own place |
| TopologyPlanner.ApplyingKeepsEvents | packages/session-domain/src/conversation-topology.ts:426-437 | In any case identity, order, kind and content stay and conversation events are located |
| TopologyListing.ListingIsComplete | packages/session-domain/src/conversation-topology.ts:271-309 | The plan lists each turn once with exactly its planned events in order, and within it each step likewise |
| TopologyReport.ListingInOrder | packages/session-domain/src/conversation-topology.ts:271-309 | Turns are listed in the order of their first events, with the number that the first event shows, and so are the steps of each turn |
| TopologyReport.ReasonsExactly | packages/session-domain/src/conversation-topology.ts:155-371 | The reasons against a plan are, in order and number, the defects of its events compared with the first event of the same ordinal, turn, step or call, each with the events and the call it is about, and after them the calls left open |
| TopologyReport.OpenCallsExactly | packages/session-domain/src/conversation-topology.ts:318-371 | The calls reported open are, in order, the first calls of their identities that no result answers |
| TopologyReport.DiagnosticsExactly | packages/session-domain/src/conversation-topology.ts:391-405 | The diagnostics number the events by kind, the listed turns and steps, and the reasons of each group |
| TopologyListing.CallsAreAccounted | packages/session-domain/src/conversation-topology.ts:318-405 | Every tool call counted is matched, unclosed or repeated |
| TopologyListing.EligibleDiagnostics | packages/session-domain/src/conversation-topology.ts:374-405 | In an eligible plan calls and matched results are equal in number, and there is no orphan, unclosed call or conflict |
| TopologyPlanner.PlanningKeepsEvents | packages/session-domain/src/conversation-topology.ts:409-439 | Planning changes nothing but missing coordinates, gives every conversation event a step, and keeps explicit coordinates |
| TopologyCorrelation.EligibleIsCorrelated | packages/session-domain/src/conversation-topology.ts:318-371 | In an eligible plan every call and result is uniquely matched at the same coordinates, call first |
| TopologyCorrelation.EligibleCallsPrecedeResults | packages/session-domain/src/conversation-topology.ts:343-393 | Eligible plans meet the compiler's hypothesis that calls precede results |
| TopologyOutline.CollectableExactly | packages/session-domain/src/conversation-topology.ts:196-309 | The planned turns are numbered, and the steps of each, exactly when every event lands at the last coordinate met or at the next one; the pass that decides it reads the input only |
| TopologyOutline.TurnsNumberedExactly | packages/session-domain/src/conversation-topology.ts:196-285 | The same for turns alone |
| TopologyOutline.StepsNumberedExactly | packages/session-domain/src/conversation-topology.ts:286-301 | The same for the steps of one turn, whatever other turns do |
| PlannedProjection.EligiblePlansAreCollectedExactly | packages/session-domain/src/conversation-topology.ts:386-437 | What an eligible plan writes on a history with distinct identities is located and collected exactly when the history comes in sequence |
| PlannedProjection.ProjectedComeInSequence | packages/session-domain/src/conversation-topology.ts:196-309 | Eligible or not, only histories in sequence are projected after planning |
| TopologyBrought.EligibleNeedsBroughtOrdinals | packages/session-domain/src/conversation-topology.ts:263-301 | In an eligible plan identities need no check, and what the planner derives needs one only where it stands out of line |
| TopologyBrought.EligibleNeedsModelSteps | packages/session-domain/src/conversation-topology.ts:207-248 | When user messages bring no step, an eligible plan is in sequence exactly when the turns brought and the steps of model events follow |
| TopologySteps.PlannedStepsAreNumbered | packages/session-domain/src/conversation-topology.ts:215-262 | In a history whose turns are in sequence every event is located, and a turn in which no event brings its own step has steps numbered from zero without gaps, whatever the other turns bring |
| TopologySteps.ExplicitTurnsKeepTheirSteps | packages/session-domain/src/conversation-topology.ts:207-214 | The steps of a turn whose events all bring theirs are the runs of those brought, in sequence exactly when these are numbered |
| MixedTurn.MixedTurnIsRefused | packages/session-domain/src/conversation-topology.ts:215-262 | A turn with a derived and an explicit first step is called eligible and refused by the compiler |
| MixedTurn.MixedTurnExactly | packages/session-domain/src/conversation-topology.ts:207-262 | A derived step followed by a brought one is eligible with any ordinal, and in sequence with the next one only |
| MixedTurn.LateAnswersAreRefused | packages/session-domain/src/conversation-topology.ts:207-214 | A lone answer that brings a later turn or a later step is called eligible and refused by the compiler |
| MixedTurn.MixedTurnIsCollected | packages/session-domain/src/conversation-topology.ts:207-262 | A turn with steps of both kinds can be collected |
| TopologySteps.UntoldHistoriesArePlannable | packages/session-domain/src/conversation-topology.ts:249-262 | Histories without coordinates get densely numbered turns and steps |
| PlannedProjection.EligiblePlansAreAccepted | packages/session-domain/src/conversation-topology.ts:386-437 | If the history returned with an eligible plan projects, the projection is accepted and preserves the transcript |
| PlannedProjection.UntoldNeverCrosses | packages/session-domain/src/conversation-topology.ts:249-262 | In a planned history without own coordinates no step has output on both sides of a user message |
| PlannedProjection.UntoldHistoriesHavePlannedTurns | packages/session-domain/src/conversation-topology.ts:249-262 | Planned histories without own coordinates pass turn and step collection, and each turn can be written exactly when the content of its events can |
| SteeringCrossing.FreeTurnCrossesExactly | packages/session-domain/src/conversation-topology.ts:224-233 | In an eligible plan a step of a turn left to the planner has output on both sides of a user message exactly when the message came while a call of the step was outstanding and model work of the step followed |
| SteeringCrossing.WaitingIsOutstanding | packages/session-domain/src/conversation-topology.ts:330-361 | A step that the planner counts as waiting has a call without a result so far |
| SteeredCall.SteeredCallIsRefused | packages/session-domain/src/conversation-topology.ts:224-233 | A history in which a message and an answer come between a call and its result is called eligible and refused by the compiler |
| PlannedProjection.FreeTurnsArePlannableExactly | packages/session-domain/src/conversation-topology.ts:228-248 | Such a turn can be written exactly when the content of its events can and no step crosses a user message in this way |
| PlannedAgain.AppliedTwice | packages/session-domain/src/conversation-topology.ts:409-439 | Planning and writing the plan twice is doing it once, repeated identities included |
| PlannedAgain.JudgedAsBefore | packages/session-domain/src/conversation-topology.ts:207-214 | A planned history is eligible, and comes in sequence, exactly when the original did |
| NormalizedHistories.NormalizedComeInSequence | packages/adapter-codex-read/src/normalizer.ts:388-421 | A normalized rollout is planned into turns and steps that are collected exactly when no event returns to an earlier turn |
| NativeRelocation.PackedStorageEvents | packages/adapter-dsh-rc1/src/materialize.ts:124-170 | A packed row expands to one chunk per member at consecutive sequences and summed times, or fails exactly when it is malformed |
| NativeRelocation.MaterializeNativeEnvelopeEvents | packages/adapter-dsh-rc1/src/materialize.ts:411-509 | Native projection returns exactly when rows are readable, origins increase and references have targets |
| NativeVerdict.NativeExactly | packages/adapter-dsh-rc1/src/materialize.ts:411-509 | Which native histories are projected, stated on the events alone: packed records are well formed, provenance can be read, every event takes its sequences after those of the events before it, and stored provenance names sequences that are taken |
| NativeShown.NativeRowsShow | packages/adapter-dsh-rc1/src/materialize.ts:195-361 | The rows of each event stand together after those of the events before it: the chunks of a packed record with turn, step, text and summed times, the stored envelope as it was, a call after the message that announces it, a result or the record of an orphan, a message with its own blocks, or an ignorable summary |
| NativeRoundTrip.RenumberingIsOrderIsomorphism | packages/adapter-dsh-rc1/src/materialize.ts:448-460 | New positions are ordered as the old sequences were, and every old sequence leads to its own row |
| NativeRoundTrip.ReferencesFollowEvents | packages/adapter-dsh-alpha2/src/materialize.ts:432-439 | Each relocated provenance entry names the row of the event the old entry named |
| NativeRoundTrip.ReplacedRangesFollowEvents | packages/adapter-dsh-alpha2/src/materialize.ts:367-376 | The bounds of a replaced range move with their events and stay where they name none |
| NativeRoundTrip.ResultsFollowTheirCalls | packages/adapter-dsh-alpha2/src/materialize.ts:440-463 | A synthesized result stays a result exactly when its call is projected, naming the last such call, and otherwise is one ignorable orphan record at its place |
| NativeRoundTrip.InsertedMessagesAnnounceCalls | packages/adapter-dsh-alpha2/src/materialize.ts:388-401 | Every inserted row is an assistant message directly before the call whose identity, name and arguments it shows |
| NativeRoundTrip.NormalizeRc1Append | packages/adapter-dsh-rc1/src/normalize-append.ts:229-326 | Native capture makes one event per row and lists exactly the types of the rows held out |
| NativeRoundTrip.CapturedCompilable | packages/adapter-dsh-rc1/src/materialize.ts:411-509 | A captured dense history projects exactly when its provenance is readable |
| NativeRoundTrip.NativeRoundTrip | packages/adapter-dsh-rc1/src/normalize-append.ts:229-326 | Capturing a dense native history and projecting it again is the identity up to the ignorable marker; a row of unknown type returns as one ignorable row at its index |
| NativeRoundTrip.AcceptanceCarriesOver | packages/adapter-dsh-rc1/src/inspect.ts:66-141 | The projected history is accepted exactly when the captured one was |
| CaptureProjection.CapturedProjects | packages/adapter-dsh-rc1/src/materialize.ts:1110-1117 | The entry point projects a captured dense history natively, returns exactly when its provenance is readable, and gives the restored rows back, accepted as before |
| CaptureProjection.CapturesCorrespond | packages/adapter-dsh-rc1/src/normalize-append.ts:50-63 | Capture of a decoded row and of its JSON value give one event each with the same identity, sequence and kind; both hold the row out without envelope, or both store it whole |
| PortableCapture.NormalizeAppend | packages/adapter-dsh-rc1/src/normalize-append.ts:229-326 | Capture in either mode succeeds exactly on valid envelopes and returns the events, and in order the types withheld and the references they are stored under |
| CapturedContent.CaptureExactly | packages/adapter-dsh-rc1/src/normalize-append.ts:229-326 | Row by row, what capture returns: the event with identity, source, kind, digest and portable or native content, the card for an unknown or incomplete row, the types held out and the references they are kept under |
| CapturedContent.ToolResultExactly | packages/adapter-dsh-rc1/src/normalize-append.ts:96-128 | A tool result is portable exactly if its block, its source or its data names the call, and then says the call, the tool, the protocol, the text of its output line by line, and whether it failed |
| CapturedContent.ToolCallExactly | packages/adapter-dsh-rc1/src/normalize-append.ts:141-150 | A tool call is portable exactly if it has identity, name and arguments, and then says these |
| CapturedContent.MessageExactly | packages/adapter-dsh-rc1/src/normalize-append.ts:77-94 | A message is captured as it is, and an assistant's without the blocks of tools, all other fields and blocks in place |
| CapturedContent.KindExactly | packages/adapter-dsh-rc1/src/normalize-append.ts:50-64 | The kind and role of a row by its type, and which types are unknown |
| PortableCapture.PortableizeRc1CanonicalHistory | packages/adapter-dsh-rc1/src/normalize-append.ts:185-227 | The conversion loop over captured events, with its four outcomes |
| CapturedContent.ConversionExactly | packages/adapter-dsh-rc1/src/normalize-append.ts:185-227 | Event by event, what conversion returns: nothing for background rows, the portable content or a card for a conversation row, and every other event without its coordinates |
| PortableCapture.ToolBlocksGone | packages/adapter-dsh-rc1/src/normalize-append.ts:82-94 | A portable assistant message keeps its blocks in order without those that tool rows repeat |
| PortableCapture.CapturesAgree | packages/adapter-dsh-rc1/src/normalize-append.ts:185-326 | Portable capture and converted native capture agree in identities, kinds and envelopes, and are equal exactly when no conversation row is malformed |
| PortableCapture.NamelessCallDiffers | packages/adapter-dsh-rc1/src/normalize-append.ts:138-147 | A call row without call identity is valid and makes the two differ |
| PortableCapture.ConversionClears | packages/adapter-dsh-rc1/src/normalize-append.ts:185-227 | A converted history holds no native conversation or control envelope and no coordinates |
| PortableCapture.ConversionSettles | packages/adapter-dsh-rc1/src/normalize-append.ts:185-227 | Converting twice is converting once |
| PortableCapture.ConversionStaysWithinBoundary | apps/engine/src/conversation-derived-boundary.ts:18-49 | A converted history is a repair within the fork boundary of the original |
| ExactJson.QuotedApart | packages/adapter-dsh-rc1/src/runtime-tail-recovery.ts:127-132 | Quoted strings are self-delimiting (section 7 of RFC 8259) |
| ExactJson.JoinApart | packages/adapter-dsh-rc1/src/runtime-tail-recovery.ts:127-132 | Lists of self-delimiting texts joined by commas and closed by a bracket determine their items |
| ExactJson.PrintsApart | packages/adapter-dsh-rc1/src/runtime-tail-recovery.ts:127-132 | No printed value followed by a delimiter can be read as another printed value followed by a delimiter |
| ExactJson.SameJsonDecides | packages/adapter-dsh-rc1/src/runtime-tail-recovery.ts:134-136 | Two values print equally exactly when they are equal up to key order, minus zero and overflowing numbers |
| ExactJson.FaithfulStrict | packages/adapter-dsh-rc1/src/runtime-tail-recovery.ts:134-136 | Without minus zero and overflowing numbers that is strict structural equality |
| ExactJson.UnfaithfulNumbers | packages/adapter-dsh-rc1/src/runtime-tail-recovery.ts:127-136 | The two kinds of number that print alike and are not equal |
| ZstdFrames.ScanZstdFrames | packages/adapter-dsh-rc1/src/runtime-tail-recovery.ts:359-411 | Both scan loops terminate and give the frames of the recursive scan |
| ZstdFrames.ScannedEndToEnd | packages/adapter-dsh-rc1/src/runtime-tail-recovery.ts:359-411 | Complete frames are nonempty, contiguous from the start and inside the buffer |
| ZstdFrames.FramesCut | packages/adapter-dsh-rc1/src/runtime-tail-recovery.ts:359-411 | Scanning any truncation of a scannable buffer gives exactly the frames that lie within the cut |
| ZstdFrames.FrameFormat | packages/adapter-dsh-rc1/src/runtime-tail-recovery.ts:364-406 | The scan finds a complete frame exactly where the encoding of a well-formed frame lies (section 3.1.1 of RFC 8878) |
| RuntimeArtifact.DecodeArtifactBytes | packages/adapter-dsh-rc1/src/runtime-tail-recovery.ts:413-439 | Frames are inflated one by one under the output limit, with the header frame holding one line |
| RuntimeArtifact.CollectLines | packages/adapter-dsh-rc1/src/runtime-tail-recovery.ts:441-463 | The line loop returns the complete lines, and fails exactly above the line limits |
| RuntimeArtifact.DecodeArtifactJsonl | packages/adapter-dsh-rc1/src/runtime-tail-recovery.ts:441-478 | Decoding lines gives the header and the events of the rows, or fails exactly when a row does |
| RuntimeArtifact.UnpackRow | packages/adapter-dsh-rc1/src/runtime-tail-recovery.ts:248-305 | The loop over a packed row yields its chunk events |
| RuntimeArtifact.PackedRowExpands | packages/adapter-dsh-rc1/src/runtime-tail-recovery.ts:280-304 | Member i of a packed row is a valid event at the start sequence plus i and the start time plus the sum of the first i deltas |
| RuntimeArtifact.EventsDense | packages/adapter-dsh-rc1/src/runtime-tail-recovery.ts:464-477 | Decoded events are numbered from zero without gaps |
| RuntimeArtifact.TornTail | packages/adapter-dsh-rc1/src/runtime-tail-recovery.ts:359-478 | If an artifact decodes, any truncation decodes exactly when the header stays complete, to the same header and a prefix of the events |
| ArtifactContent.ArtifactExactly | packages/adapter-dsh-rc1/src/runtime-tail-recovery.ts:413-478 | Decoding returns a header and events exactly if the bytes, or what their frames inflate to one by one within the limit, are complete lines within the limits, the first the header and the others records that stand for the events, numbered from zero |
| StoredRecords.PackedRecord | packages/adapter-dsh-rc1/src/runtime-tail-recovery.ts:248-305 | A packed row unfolds to consecutive events with running times, each with the turn and step of the row and a chunk of its kind, index and text, and for calls identity and name |
| StoredRecords.PackedExactly | packages/adapter-dsh-rc1/src/runtime-tail-recovery.ts:248-280 | A packed row is read exactly if it has its four fields, the data of its kind, texts and one safe step of time between any two, and safe sequences and times |
| StoredRecords.PlainRecord | packages/adapter-dsh-rc1/src/runtime-tail-recovery.ts:307-346 | Any other record is one event with every field as stored and its provenance written out number by number |
| ArtifactPaths.EncodeSegment | packages/adapter-dsh-rc1/src/runtime-tail-recovery.ts:138-151 | The encoding loop fails exactly on the empty identity |
| ArtifactPaths.SegmentReadsBack | packages/adapter-dsh-rc1/src/runtime-tail-recovery.ts:138-151 | Reading a session directory's name gives the session identity back |
| ArtifactPaths.SegmentIsDirectoryName | packages/adapter-dsh-rc1/src/runtime-tail-recovery.ts:138-151 | The name of a session directory has no separator and is neither the current nor the parent directory |
| ArtifactPaths.ProjectKey | packages/adapter-dsh-rc1/src/runtime-tail-recovery.ts:153-172 | The project directory is computed for every nonempty working directory |
| ArtifactPaths.KeyIsDirectoryName | packages/adapter-dsh-rc1/src/runtime-tail-recovery.ts:153-172 | Project directories are single names of at most 255 units, never the one of sessions without a project |
| ArtifactPaths.KeyIsFold | packages/adapter-dsh-rc1/src/runtime-tail-recovery.ts:153-172 | A project directory is the working directory with runs of separators as dashes, leading dashes dropped, escaped and cut |
| ArtifactPaths.KeysDecide | packages/adapter-dsh-rc1/src/runtime-tail-recovery.ts:153-172 | Two projects share a directory exactly when their folded names agree as far as the directory shows them; below the limit exactly when the folded names are equal |
| ArtifactPaths.CleanPathsApart | packages/adapter-dsh-rc1/src/runtime-tail-recovery.ts:153-172 | Absolute paths with single slashes and no dash, backslash or colon share a directory only when equal, or as the root and the path /root do |
| ArtifactPaths.ProjectsCollide | packages/adapter-dsh-rc1/src/runtime-tail-recovery.ts:158-163 | A separator and a dash collide |
| ArtifactPaths.PlacesApart | packages/adapter-dsh-rc1/src/runtime-tail-recovery.ts:174-183 | Artifacts are expected in equal session directories exactly when they are of one session |
| RuntimeAppend.AcceptedReachesRevision | packages/adapter-dsh-rc1/src/runtime-bridge.ts:182-235 | An accepted operation leaves the log at its revision, extended by a suffix of the operation |
| RuntimeAppend.AcceptedStaysDense | packages/adapter-dsh-rc1/src/runtime-bridge.ts:213-220 | A dense log stays dense |
| RuntimeAppend.AppendExactly | packages/adapter-dsh-rc1/src/runtime-bridge.ts:128-235 | An append is accepted exactly if the log of its session stands within its events, agrees with those before and those behind are numbered on; then only these events and the time are added, and not the time when there are none left |
| RuntimeAppend.DeliverOne | packages/adapter-dsh-rc1/src/runtime-bridge.ts:203-224 | On a partly applied chain an operation is accepted exactly when the log stands within it, and leaves the prefix up to its end; otherwise nothing changes |
| RuntimeAppend.AnySchedule | packages/adapter-dsh-rc1/src/runtime-bridge.ts:128-140 | Under duplicates, stale retries and early arrivals the log is always a prefix of the concatenated payloads |
| RuntimeAppend.AtLeastOnce | packages/adapter-dsh-rc1/src/runtime-bridge.ts:128-140 | A schedule that contains the operations in order leaves the whole log, whatever else it contains |
| RuntimeBridge.Rc1RuntimeBridge.Drain | packages/adapter-dsh-rc1/src/runtime-bridge.ts:84-88 | Draining marks an attached run and changes nothing else |
| RuntimeBridge.Rc1RuntimeBridge.FinishDetach | packages/adapter-dsh-rc1/src/runtime-bridge.ts:97-103 | Detaching forgets registration, handler and drain mark of one run |
| RuntimeBridge.Rc1RuntimeBridge.BindAppendHandler | packages/adapter-dsh-rc1/src/runtime-bridge.ts:111-117 | A handler is bound exactly to an attached run that has none |
| RuntimeBridge.Rc1RuntimeBridge.SubmitAppend | packages/adapter-dsh-rc1/src/runtime-bridge.ts:119-126 | Appends reach the bound handler unless the run drains |
| RuntimeBridge.Rc1RuntimeBridge.ValidateAppend | packages/adapter-dsh-rc1/src/runtime-bridge.ts:182-235 | Validation reads only, and accepts exactly attached runs with a matching session and operation |
| RuntimeBridge.Rc1RuntimeBridge.ApplyAppend | packages/adapter-dsh-rc1/src/runtime-bridge.ts:128-140 | A valid append changes one session to what delivery gives; an invalid one changes nothing |
| RuntimeBridge.AlwaysConsistent | packages/adapter-dsh-rc1/src/runtime-bridge.ts:60-62 | In every run handlers and drain marks belong to attached runs |
| RuntimeBridge.DrainingStaysClosed | packages/adapter-dsh-rc1/src/runtime-bridge.ts:119-126 | Once a run drains it accepts no append until it is detached |
| RuntimeBridge.HandlerWasBound | packages/adapter-dsh-rc1/src/runtime-bridge.ts:111-117 | A handler in use was bound by an earlier call, with no detachment since |
| RuntimeBridge.FirstHandlerStays | packages/adapter-dsh-rc1/src/runtime-bridge.ts:111-117 | The first handler of a run stays until detachment |
| RuntimeBridge.OneRunChanges | packages/adapter-dsh-rc1/src/runtime-bridge.ts:84-117 | What the bridge knows of one run changes only by an action on that run through a handle of this adapter, and how |
| RuntimeBridge.SubmittedWasBound | packages/adapter-dsh-rc1/src/runtime-bridge.ts:111-126 | The handler that receives an append was bound while its run was attached, and since then the run was neither detached nor drained |
| RuntimeRecovery.NormalizeMappings | packages/adapter-dsh-rc1/src/runtime-tail-recovery.ts:527-545 | Mappings are accepted exactly when each is valid and no session is mapped twice |
| RecoveryVerdict.HeadersAgreeExactly | packages/adapter-dsh-rc1/src/runtime-tail-recovery.ts:547-566 | A stored header is accepted for a session exactly if every other field agrees up to the order of keys, an absent depth counts as zero, the session is seeded exactly when a seed length is stored, and the working directory agrees or lies below the managed root |
| RecoveryVerdict.InheritedExactly | packages/adapter-dsh-rc1/src/runtime-tail-recovery.ts:231-238 | A mapping states the number of its metadata as inherited, none without metadata and seed, and otherwise nothing |
| RuntimeRecovery.RecoverRc1RuntimeTail | packages/adapter-dsh-rc1/src/runtime-tail-recovery.ts:575-665 | Recovery returns exactly when the mappings and every artifact in turn are acceptable, with the recovered operations in order |
| RecoveryVerdict.AcceptedExactly | packages/adapter-dsh-rc1/src/runtime-tail-recovery.ts:617-633 | A mapped artifact is accepted exactly if header and seed length agree and its first rows are the committed ones up to the order of keys |
| RecoveryVerdict.RecoveredExactly | packages/adapter-dsh-rc1/src/runtime-tail-recovery.ts:634-657 | From an accepted artifact nothing is recovered unless some row behind the committed ones is no preparation, and then all of them, under the identities of the mapping |
| RecoveryVerdict.RecoveryExactly | packages/adapter-dsh-rc1/src/runtime-tail-recovery.ts:591-665 | Recovery succeeds exactly if every artifact decodes, lies in its place, is accepted or unmapped preparation, and no session has two; it returns one operation for each session that was continued, in order |
| RuntimeRecovery.OperationsComeFromArtifacts | packages/adapter-dsh-rc1/src/runtime-tail-recovery.ts:592-657 | Every operation is the tail of an artifact of its own session, and no session is recovered twice |
| RuntimeRecovery.OneArtifactPerSession | packages/adapter-dsh-rc1/src/runtime-tail-recovery.ts:594-603 | When recovery returns, every artifact lay in the directory named after its session, up to what the host ignores in names, and no session was read twice |
| RuntimeRecovery.OneDirectoryPerSession | packages/adapter-dsh-rc1/src/runtime-tail-recovery.ts:594-603 | Where case counts, the directory name reads back to the session and no name was read twice |
| RuntimeRecovery.RecoveryIsExact | packages/adapter-dsh-rc1/src/runtime-tail-recovery.ts:575-665 | Applying the recovered operation to any projection between the committed prefix and the artifact gives exactly the artifact's events |
| RuntimeRecovery.RecoveryIsAFixpoint | packages/adapter-dsh-rc1/src/runtime-tail-recovery.ts:575-665 | Once the tail is committed, a second recovery finds nothing |
| RuntimeRecovery.NothingToRecover | packages/adapter-dsh-rc1/src/runtime-tail-recovery.ts:613-646 | A mapped artifact yields no operation exactly when header, inheritance and prefix agree and the tail holds only preparation rows |
| RuntimeRecovery.TornThenWhole | packages/adapter-dsh-rc1/src/runtime-tail-recovery.ts:575-665 | Recovering from a torn artifact first and from the whole one later gives what recovering from the whole one gives |
| DerivationClosure.CloseOver | apps/engine/src/codex-project-mapping-reconcile.ts:27-33 | The keep loop terminates at the least set that contains the seeds and is closed under derivation |
| DerivationClosure.Retarget | apps/engine/src/codex-project-mapping-reconcile.ts:116-129 | The bounded loop with its early exit does what the bound's number of passes does |
| DerivationClosure.RetargetConverges | apps/engine/src/codex-project-mapping-reconcile.ts:116-129 | With one parent per child and no cycle, the pass bound suffices: every kept child shares its parent's project, and each session's project is that of its nearest deciding ancestor |
| RetargetCycles.PassBoundSettles | apps/engine/src/codex-project-mapping-reconcile.ts:116-129 | For rows with one parent per child, the pass bound settles every assignment of projects exactly when no cycle of kept derivations has two rows listed before the rows of their parents |
| RetargetCycles.ForestHasNoCycle | apps/engine/src/codex-project-mapping-reconcile.ts:116-129 | Without derivation cycles there is nothing to exclude |
| RetargetCycles.ListingDecides | apps/engine/src/codex-project-mapping-reconcile.ts:117-129 | The same three derivations settle in one listing of the table and need not in another |
| ProjectMapping.Store.SelectedMappingKeepSet | apps/engine/src/codex-project-mapping-reconcile.ts:19-34 | The selected set is the least derivation-closed set with the selected sources and the native sessions of selected projects |
| ProjectMapping.Store.WithActiveLocalDsh | apps/engine/src/codex-project-mapping-reconcile.ts:37-60 | The keep set adds the active local sessions and their active continuations |
| ProjectMapping.Store.RemoveOutOfScope | apps/engine/src/codex-project-mapping-reconcile.ts:72-98 | Aliases, keep sets, checkpoint and removals leave the tables of the fold |
| ProjectMapping.Store.Reconcile | apps/engine/src/codex-project-mapping-reconcile.ts:68-135 | Reconciliation is refused exactly while runs are active and then changes nothing; otherwise the tables and the counts are those of the fold |
| ReconciledTables.SessionExactly | apps/engine/src/codex-project-mapping-reconcile.ts:77-115 | The rows of each session after a reconciliation: removed if it was in use and is neither reached by the selection nor local work, revived to its remembered place if the mapping held it and the selection reaches it, and otherwise untouched |
| ReconciledTables.KeepExactly | apps/engine/src/codex-project-mapping-reconcile.ts:19-65 | Kept is what derivations lead to from selected sessions, and what continuations in use lead to from local sessions in use |
| ReconciledTables.ProjectsExactly | apps/engine/src/codex-project-mapping-reconcile.ts:130-133 | A project is live afterwards exactly while a session in use is its member; one that falls out of use is retired now, and one retired before and still unused keeps its date |
| ReconciledTables.CheckpointExactly | apps/engine/src/codex-project-mapping-reconcile.ts:79-85 | One checkpoint holds exactly the versions of what is removed, none is written when nothing is, and older ones stay |
| ReconciledTables.CountsExactly | apps/engine/src/codex-project-mapping-reconcile.ts:78-134 | The counts list each removed and each restored session once, and as many sessions are in use afterwards as before without the removed and with the restored |
| ReconciledTables.SpreadingCountsMoves | apps/engine/src/codex-project-mapping-reconcile.ts:116-129 | Spreading projects moves only memberships of kept sessions, and a membership moved exactly if its revision grew |
| ProjectMapping.Store.DeleteWithinTransaction | apps/engine/src/session-maintenance-commands.ts:149-191 | User deletion with its pending, repeated and fresh cases |
| ReconciledTables.DeletionExactly | apps/engine/src/session-maintenance-commands.ts:149-191 | What a deletion by the user leaves in each row, and what it reports, with writes pending, repeated and fresh |
| ProjectMapping.Store.RestoreSession | apps/engine/src/session-maintenance-commands.ts:193-224 | User restoration and the workspace it returns to |
| ReconciledTables.RestorationExactly | apps/engine/src/session-maintenance-commands.ts:193-224 | What a restoration by the user leaves in each row: the session in use and unpinned, archived if it was, in the workspace remembered or else where it is, and its project live |
| ReconciledTables.DeleteThenRestore | apps/engine/src/session-maintenance-commands.ts:149-224 | Deleting a session in use and restoring it gives its row and its workspace back and touches no other session |
| ReconciledTables.HideThenRestore | apps/engine/src/session-maintenance-commands.ts:149-224 | After a deletion with writes pending the workspace comes back exactly unless an older tombstone remembers another one |
| MappingTheorems.SessionFate | apps/engine/src/codex-project-mapping-reconcile.ts:77-115 | Every session suffers exactly one fate: left, removed under a fresh operation with its place remembered, or revived to the remembered place |
| MappingTheorems.ActiveAfter | apps/engine/src/codex-project-mapping-reconcile.ts:77-115 | A session is active afterwards exactly when it was active and kept, or was marked and selected |
| MappingTheorems.OnlyMarkedRevived | apps/engine/src/codex-project-mapping-reconcile.ts:99-105 | Only a session whose live tombstone carries the marker's own operation is revived |
| MappingTheorems.CheckpointHoldsRemovals | apps/engine/src/codex-project-mapping-reconcile.ts:79-84 | Every removed session with a head is in the references of a new checkpoint, with that head |
| MappingTheorems.ReconciledValid | apps/engine/src/codex-project-mapping-reconcile.ts:68-135 | Reconciliation keeps the invariant of the tables |
| MappingTheorems.DeletionProtects | apps/engine/src/session-maintenance-commands.ts:149-191 | Deletion by the user puts a session out of automatic reach exactly when the mapping had not itself removed it |
| MappingTheorems.DeletedStaysDeleted | apps/engine/src/codex-project-mapping-reconcile.ts:86-115 | Over every run of reconciliations, deletions and restorations, a session deleted while active stays deleted until the user restores it |
| MappingTheorems.ReconciledRests | apps/engine/src/codex-project-mapping-reconcile.ts:68-135 | Where renaming once leaves nothing to rename, reconciliation leaves tables at rest under its selection, with no membership in a renamed project |
| MappingTheorems.ReconcileTwice | apps/engine/src/codex-project-mapping-reconcile.ts:68-135 | There, reconciling again with the same selection renames, removes and revives nothing and changes no session |
| AliasChains.RenamesNothingExactly | apps/engine/src/codex-project-mapping-reconcile.ts:72-74 | A reconciliation renames nothing exactly when no membership is in a project that it renames |
| AliasChains.SettlingExactly | apps/engine/src/codex-project-mapping-reconcile.ts:72-74 | A second reconciliation renames nothing, whatever the tables, exactly when no renamed project ends up in one that is renamed |
| AliasChains.ChainsDiffer | apps/engine/src/codex-project-mapping-reconcile.ts:72-74 | A chain of aliases listed from its end renames again, and listed from its beginning does not |
| MappingTheorems.NarrowThenWiden | apps/engine/src/codex-project-mapping-reconcile.ts:68-135 | From tables at rest under the wide selection, narrowing it and widening it back restores the same active sessions with their workspace, order, pin and archive fields, unless a membership is renamed on the way |
| AliasChains.RenamingNarrowLoses | apps/engine/src/codex-project-mapping-reconcile.ts:72-105 | A narrow selection that renames a project of the wide one takes its session away, and widening does not bring it back |
| MappingTheorems.ScopeSwitchUndone | apps/engine/src/codex-project-mapping-reconcile.ts:68-135 | From whatever the wide selection left of valid tables, the scope switch is undone, when the narrow selection renames no more projects than the wide one |
| ReconciledTables.NarrowThenWidenProjects | apps/engine/src/codex-project-mapping-reconcile.ts:68-135 | Where projects had spread and were live exactly while used, narrowing and widening gives every membership and every project back, retired ones with their date |
| ReconciledTables.ScopeSwitchRestoresProjects | apps/engine/src/codex-project-mapping-reconcile.ts:68-135 | From whatever the wide selection left of valid tables without derivation cycles, the same |
| ImportCache.AlwaysSound | apps/engine/src/codex-canonical-import.ts:407-535 | In every interleaving of passes, aborts and source changes, cache and mirror keep the seqlock invariant |
| ImportCache.SkipIsSound | apps/engine/src/codex-canonical-import.ts:421-425 | A skip leaves the mirror equal to the versions just read |
| ImportCache.TitleOnlyIsSound | apps/engine/src/codex-canonical-import.ts:433-437 | A title-only commit stores what a full observation would have stored |
| ImportCache.EntryMatchesMirror | apps/engine/src/codex-canonical-import.ts:426-432 | A cache entry is written only when the mirror equals the source at that fingerprint |
| ImportCache.CurrentEntryMeansCurrentMirror | apps/engine/src/codex-canonical-import.ts:421-432 | An entry that equals the source now means the mirror does too |
| ImportCache.QuietPassMakesCurrent | apps/engine/src/codex-canonical-import.ts:407-535 | A pass over unchanging sources makes every visited session's entry and mirror current and disturbs no other |
| ImportCache.PassCachesListed | apps/engine/src/codex-canonical-import.ts:405-535 | After a whole quiet pass the cache holds exactly the listed sessions, each at its current versions, and so does the mirror for these |
| ImportCache.NextPassReadsNothing | apps/engine/src/codex-canonical-import.ts:421-425 | The pass after a quiet one skips every such session without reading a body |
| ProjectObserver.CodexProjectObserver.Start | apps/engine/src/codex-project-observer.ts:35-45 | What a start call does before it waits |
| ProjectObserver.CodexProjectObserver.Stop | apps/engine/src/codex-project-observer.ts:47-57 | What a stop call does before it waits |
| ProjectObserver.CodexProjectObserver.TickPass | apps/engine/src/codex-project-observer.ts:60-90 | A tick joins the pass under way or begins one |
| ProjectObserver.CodexProjectObserver.FireTimer | apps/engine/src/codex-project-observer.ts:97-105 | A timer of the current lifecycle begins or joins a pass and will reschedule; a stale one does nothing |
| ProjectObserver.CodexProjectObserver.SettlePass | apps/engine/src/codex-project-observer.ts:63-90 | The end of a pass and the status it reports unless aborted |
| ProjectObserver.CodexProjectObserver.ResumeLoop | apps/engine/src/codex-project-observer.ts:97-105 | A finished loop reschedules only in its own lifecycle |
| ProjectObserver.AlwaysSound | apps/engine/src/codex-project-observer.ts:35-105 | Every interleaving of calls, timers and settling passes keeps the observer's invariant |
| ProjectObserver.AtMostOnePass | apps/engine/src/codex-project-observer.ts:60-90 | At most one pass is under way, and it is the active one |
| ProjectObserver.ExactlyOneLoop | apps/engine/src/codex-project-observer.ts:97-105 | Exactly while running there is one polling loop of the current lifecycle, and no stale timer is left |
| ProjectObserver.StaleLoopsEnd | apps/engine/src/codex-project-observer.ts:97-105 | A loop of another lifecycle ends without rescheduling |
| ProjectObserver.SettlesAsAsked | apps/engine/src/codex-project-observer.ts:35-57 | Once all calls have settled the observer runs exactly if the last effective call was a start; after a stop its status is stopped and no timer is set |
| ProjectObserver.StoppedStaysSilent | apps/engine/src/codex-project-observer.ts:47-57 | After a completed stop no later timer, tick or pass changes the stopped status |
| ObserverReports.StatusIsLastReport | apps/engine/src/codex-project-observer.ts:35-90 | In every run the status is the one last reported: idle by a start that takes effect or a pass that succeeded, syncing by a pass that began, error by one that failed, stopped by the last stop, none of them under an aborted signal |
| ObserverReports.RunningReports | apps/engine/src/codex-project-observer.ts:35-57 | A running observer's signal is not aborted, so that the passes it begins report |
| ForkBoundary.IndexBase | apps/engine/src/conversation-derived-boundary.ts:22-33 | The base is indexed exactly when its identities are complete and distinct |
| ForkBoundary.AssertDerivedParentForkBoundary | apps/engine/src/conversation-derived-boundary.ts:18-49 | Accepts exactly when all identities are present, the base's are distinct and the repaired parent's are a subsequence of them |
| ForkBoundary.RepairsCompose | apps/engine/src/conversation-derived-boundary.ts:18-49 | A repair of an accepted repair is accepted for the original base |
| ForkBoundary.RepairIsABase | apps/engine/src/conversation-derived-boundary.ts:18-49 | An accepted repair can itself serve as a base |
| CodexParser.ParseCodexJsonl | packages/adapter-codex-read/src/parser.ts:69-88 | The whole-buffer parser returns the envelopes of the lines, or fails exactly on a limit or a malformed line |
| RolloutText.WholeExactly | packages/adapter-codex-read/src/parser.ts:69-88 | The parser over the whole text returns envelopes exactly if the text is within its limits and its lines, without a carriage return at their end, are empty or the texts of these envelopes in order |
| CodexParser.ParseCodexJsonlChunks | packages/adapter-codex-read/src/parser.ts:97-139 | The streaming parser with its carry equals the line splitting of the concatenation, with its length and digest, and fails exactly at the limits |
| CodexParser.StreamAgreesWithWhole | packages/adapter-codex-read/src/parser.ts:69-139 | Where both return they agree, and each returns where the other does except exactly under the two limit differences |
| CodexParser.ChunkingIrrelevant | packages/adapter-codex-read/src/parser.ts:97-139 | When no raw line exceeds the limit, every chunking of the same bytes gives the same envelopes, length and digest |
| CodexParser.ChunkingMattersAtTheLimit | packages/adapter-codex-read/src/parser.ts:125-128 | A line of exactly the limit with CR LF parses in one chunking and fails in another |
| CodexNormalizer.ActiveCodexEnvelopes | packages/adapter-codex-read/src/normalizer.ts:275-315 | What is replayed is everything, or the last compaction, its portable replacements and what follows |
| RolloutEvents.CompactedReplay | packages/adapter-codex-read/src/normalizer.ts:275-315 | With compactions, the last one is replayed as a boundary, then exactly the entries of its history that can be replayed, in order, then every envelope behind it |
| RolloutEvents.WholeReplay | packages/adapter-codex-read/src/normalizer.ts:275-284 | Without one every envelope is replayed |
| CodexNormalizer.TurnAssignment.AssignTopology | packages/adapter-codex-read/src/normalizer.ts:388-421 | The turn assigned to an item and the table it extends |
| CodexNormalizer.TurnAssignment.UpdateTurnBoundaryBefore | packages/adapter-codex-read/src/normalizer.ts:471-491 | Which envelopes begin a turn |
| CodexNormalizer.TurnAssignment.UpdateTurnBoundaryAfter | packages/adapter-codex-read/src/normalizer.ts:493-506 | Which envelopes end the active turn |
| CodexNormalizer.NormalizeCodexObservation | packages/adapter-codex-read/src/normalizer.ts:542-638 | The normalizer's loop gives the outcome of the fold over the active envelopes |
| RolloutEvents.EventsExactly | packages/adapter-codex-read/src/normalizer.ts:508-638 | The events are, in order, exactly those of the items that talk, each in the phase it reads as, and of the items that are shown only, each with its reason; nothing else gives an event |
| RolloutEvents.KindsExactly | packages/adapter-codex-read/src/normalizer.ts:557-638 | The tally holds for each source kind, its envelope's and its payload's, how many active envelopes are of it |
| RolloutEvents.CountsExactly | packages/adapter-codex-read/src/normalizer.ts:557-638 | The summary counts what talks as canonical, what is shown only as other, and everything else as evidence |
| RolloutEvents.ReplayedInTurn | packages/adapter-codex-read/src/normalizer.ts:388-421 | An item belongs to the turn of the running task, else to the one its metadata names, else, unless the user speaks, to that of the conversation before it, else to its own; it is explicit when a task runs or metadata names it |
| RolloutEvents.RunningExactly | packages/adapter-codex-read/src/normalizer.ts:471-506 | A task runs if it was begun, no other was begun since and no end of it was read |
| RolloutEvents.PatchNoticeExactly | packages/adapter-codex-read/src/normalizer.ts:354-386 | A legacy patch warning is one that stands between a call and its output with a patch of that call reported before the output |
| CodexNormalizer.EveryEnvelopeAccountedFor | packages/adapter-codex-read/src/normalizer.ts:557-663 | Envelopes are canonical, evidence or other events, events are the canonical and other ones numbered from zero, and kinds are counted |
| CodexNormalizer.EventsInOrder | packages/adapter-codex-read/src/normalizer.ts:560-638 | Events come from exactly the envelopes classified as canonical or other, in order |
| CodexNormalizer.TurnsAndOrdinalsCorrespond | packages/adapter-codex-read/src/normalizer.ts:406-411 | Turn identities and ordinals are in bijection, and ordinals are dense in order of first use |
| CodexNormalizer.TaskIsActiveTurn | packages/adapter-codex-read/src/normalizer.ts:471-506 | The active turn is the last begun and not ended one of the envelopes read |
| CodexNormalizer.ItemsShareTheirTask | packages/adapter-codex-read/src/normalizer.ts:394-401 | Items read while one turn is active are assigned to it, whatever their own metadata says |
| CodexNormalizer.BeforeCompactionIsIrrelevant | packages/adapter-codex-read/src/normalizer.ts:275-315 | Two equally long rollouts that differ only before the last compaction give the same events |

## Left out

- Message content is opaque: blocks are carried as values; attachment labels, visible-text cleaning, title extraction and the wording of failures are not modelled. Only whether an operation fails is kept, not which message it throws.
- Integers are unbounded. Safe-integer checks are kept in the artifact decoder and the append, where inputs come from disk, and dropped in the projection compiler.
- The host supplies Zstandard decompression of one frame, JSON parsing of one line, JSON.stringify, evidence references, fresh identities, clocks, and comparison of paths; these are parameters or counters. File enumeration, file size limits and hashing are omitted.
- Where header and rows are compared field by field, JSON parsing is taken to give objects without repeated keys and each number in one form (`ParsesWell`), as JSON.parse does.
- The text of a number that is not a safe integer is taken as the text JavaScript prints for it; equal numbers are assumed to be given by equal texts.
- Minus zero in a stored provenance list is read as zero.
- The Alpha2 bridge, recovery and inspection are twins of RC1 and modelled once; the Alpha2 relocation pass is the one of `NativeRelocation`.
- Call identifiers made of white space only make the compiler throw; results about its output are stated for histories on which it returns (`Compilable`), and `CompilableExactly` says which these are.
- Restoration of metadata rows from the evidence store (packages/adapter-dsh-rc1/src/native-metadata.ts) is not modelled.
- NativeRoundTrip.NormalizeRc1Append: works on decoded rows, with content, digest and source of an event left out; `PortableCapture.NormalizeAppend` has the JSON rows, and `CapturesCorrespond` relates the two for types written in single UTF-16 units.
- The registrar's awaited calls split attach, drain and detach of the bridge into steps; registration, hiding and switching of sessions are omitted. Interleaved calls of applyAppend on one session are not modelled; the write coordinator that serialises them is not part of this model.
- Database rows are maps, with rows listed in a fixed order; projection modes, update times and retention times are omitted.
- MappingTheorems.ReconcileTwice: for tables that one renaming settles (`SettlingExactly` says for which aliases all do), and in which no derived child is maintenance-native, which the insert trigger of the derivation table guarantees.
- MappingTheorems.NarrowThenWiden: under the same condition on derived children, and with no membership in a project that either selection renames; `RenamingNarrowLoses` shows that it fails otherwise.
- ImportCache: fingerprints are taken to be the version triples they are computed from, versions only grow, and the importer is the only writer of the mirror.
- ProjectObserver: the body of a pass is reduced to its outcome; the interval, time stamps and error texts are omitted.
- Rollouts are taken to be valid UTF-8, as decoding then encoding is the identity only there; the hash of the streaming parser is a parameter.
- CodexNormalizer: the reading of message, tool and reasoning items is a parameter; event identities, attachments, compatibility issues and the session summary around the events are omitted.
- TopologyPlanner: the planner keys a step by its turn and step identities joined with a NUL unit; the model keys it by the pair, so identities are taken not to contain that unit.
- PortableCapture.NormalizeAppend: takes the rows and the mode of an append; its run, operation, session and base version identities, which are copied through, are omitted.
- NormalizedHistories: what a normalized event says is left open; only its kind and its turn are related to those of the canonical event.
- User interface, HTTP server, command line, configuration, projection lifecycle and write-ahead log are outside this model.
