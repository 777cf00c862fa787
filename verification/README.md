# Reading Agent: a verified model

This project models, in Dafny, the parts of the Reading Agent application whose guarantees come from several functions
together, and proves those guarantees for every input, every run and every interleaving.

- **The ReAct workflow** (`AgentState`, `ReadingGraph` and the three `Reading` files about its runs). `AgentState` is a
  class whose mutators assign fields and then synchronise the contract; each is tied to a function. The graph is a step
  machine over a durable pair (next node, committed state), a process that is up or down, the log of actions that took
  effect and the emitted events. The decision service, the tools, the evidence gate, crashes, failures and resumes are
  arbitrary choices at each step. The graph library is modelled as "commit after each node".
- **The evidence pipeline** (`Evidence`, `DocumentAnalyst`, `ResearchSynthesizer`, `ComparisonVerdicts`,
  `AcademicWriter`, `SectionVerdicts`, `GroundingPipeline`). Each specialist has a producer and a gate; drafts are
  arbitrary, and the three stages compose.
- **The research memory** (`ResearchMemory` and the seven files about it). Five tables as sequences of rows, with a
  transaction of many statements that is rolled back when an entity has no name or any of the statements fails. A fresh
  `uuid4` value is the next number of a counter.
- **The translation cache** (`TranslationCache`, `TranslationCacheRuns`). A bounded recency sequence over a persistent
  table per file; every statement may fail, with or without its effect, and makes the store unavailable.
- **Text** (`TextMarks`, `Chunking`, `ChunkingMeaning`, `ChunkingWords`, `Normalizer`). A text is read as its non-space
  characters, each with the kind of gap before it: none, white space, a line break, a paragraph break. Splitting and
  merging lose no character and no gap; normalization keeps exactly the characters and gaps and is the shortest text that
  has them.
- **The control search** (`ControlSearch`), a breadth-first search over a graph that may have cycles.
- **The clipboard protocol** (`Clipboard`), against arbitrary writes by others at every sleep, wait and copy shortcut.
- **The settings** (`SettingsFile`, `Settings`), with the printer, a parser of what it prints by the rules of
  TOML v1.0.0, and the manager that merges, saves and reloads.

Code that changes things step by step is modelled by methods and classes; each such member is proved equal to a function
of its inputs or of the old state, and the lemmas are about that function.

`Wrappers` and `Text` hold what several modules share.

What the code does not do is proved too, with the exact condition:

- The limit event ends the loop's events exactly if no node that crashed after emitting it is followed by an attempt that
  emits a limit event or a decision. Under one policy the next attempt at that node with a result and a sink does, unless
  the tool now asks for a confirmation; a crash and a resume in a fresh run repeat both events.
- From comparisons the deterministic writer stores its section exactly for task ids of up to 233 characters, since claim
  ids contain the task id, up to 512 pieces of evidence and up to 256 comparisons, each of which is in its lineage.
- The result of a stored PASSED comparison cannot be built for task ids of 255 or 256 characters, since the attempt id is
  longer.
- A PASSED comparison covers two documents or more exactly if its inputs are of two documents or more: the gate counts
  analyses, so that several analyses of one document can pass.
- The recorded span of an excerpt is the stored excerpt itself exactly when the cut at 4000 characters leaves no white
  space at its end; otherwise the span is shorter than the stored excerpt, as for 3999 letters, a blank and a letter.
- A hard cut of an oversized text falls at a blank exactly if there is one in the second half of the chunk size; so a text
  keeps its words if no run of characters between two blanks is longer than that half, while a word above the chunk size
  is cut.
- `apply_multi_step_plan` takes effect only if the route is already an explicit complex one.
- A setting with the character U+007F makes the saved file unreadable, so that a reload finds no user settings at all.
- A save that cannot write still changes the user data in memory.
- Switching history off leaves no source text in the configured file exactly if the file had none or the switch reaches
  it: not when the cache moves to another file or is disabled at once, is unavailable, or the statement fails.

## Model

| member | source | states |
|---|---|---|
| `AgentStates.SyncIdempotent` | backend/agent_core/state.py:140-265 | Synchronising a state twice is synchronising it once: the single step behind `PlanIsDecidedByRoutesAndPlans`. |
| `AgentStates.ApplyEndsSynchronised` | backend/agent_core/state.py:299-384 | Every mutator leaves a fixed point of the synchronisation: the single step behind `PlanIsDecidedByRoutesAndPlans`. |
| `AgentStates.MultiStepPlanIsStable` | backend/agent_core/state.py:306-384 | While the route stays explicit and complex, only the two plan mutators change a multi-step plan: the single step of `MultiStepPlanSurvivesEverySequence`. |
| `AgentStates.MultiStepPlanLostExactlyByRoute` | backend/agent_core/state.py:386-403 | A mutator ends the multi-step plan exactly if it sets a route that is not explicit and complex: a single step of `PlanIsDecidedByRoutesAndPlans`. |
| `AgentStates.PlanIsDecidedByRoutesAndPlans` | backend/agent_core/state.py:140-469 | Over every sequence of mutators the multi-step plan is decided by the route changes, the multi-step plans and the step marks alone. |
| `AgentStates.MultiStepPlanSurvivesEverySequence` | backend/agent_core/state.py:140-469 | A multi-step plan is left as it is by any number of other mutators that keep the route explicit and complex. |
| `AgentStates.MultiStepPlanTakesEffectExactly` | backend/agent_core/state.py:306-324 | A multi-step plan survives its own assignment exactly if the route is explicit and complex: a single step of `PlanIsDecidedByRoutesAndPlans`. |
| `AgentStates.StepMarkLastsExactlyOnMultiStepPlans` | backend/agent_core/state.py:358-384 | On a multi-step plan a step mark changes just the named step and the current step id, which becomes the step that runs, or else the first pending one; on a derived plan it changes nothing. |
| `AgentStates.RouteFollowsTheAction` | backend/agent_core/state.py:195-250 | An explicit route stays; any other one is derived from the planned action: its tool, arguments, reason and intent, an answer, or unresolved. |
| `AgentStates.StepIsCompletedByItsResult` | backend/agent_core/state.py:195-250 | While a planned tool action stays, the plan is the one step of that tool, and over every sequence of mutators it is completed exactly when a result of the tool was there or has been recorded. |
| `AgentStates.IntentFollowsTheMutators` | backend/agent_core/state.py:299-403 | After any sequence of mutators the intent is what the last one that names an intent says. |
| `AgentStates.RefusedExactly` | backend/agent_core/state.py:306-453 | What the guards refuse: a decision that does not advance, an observation beyond the iteration or without its tool decision, an unknown step id, a plan that is not multi-step. |
| `AgentStates.AgentState.SyncContract` | backend/agent_core/state.py:140-265 | The method leaves the synchronised value of the old state. |
| `AgentStates.AgentState.DoApplyRoute` | backend/agent_core/state.py:386-403 | The new state is the value form of the mutator applied to the old state. |
| `AgentStates.AgentState.DoApplyPlan` | backend/agent_core/state.py:299-304 | The planned action and the intent are replaced and the state is synchronised. |
| `AgentStates.AgentState.DoApplyMultiStepPlan` | backend/agent_core/state.py:306-324 | A plan that is not multi-step raises after it has been assigned; otherwise the value form of the mutator. |
| `AgentStates.AgentState.DoMarkPlanStep` | backend/agent_core/state.py:358-384 | An unknown step id raises and changes nothing; otherwise the value form of the mutator. |
| `AgentStates.AgentState.DoStartReact` | backend/agent_core/state.py:405-409 | A fresh ReAct context replaces the old one. |
| `AgentStates.AgentState.DoRecordDecision` | backend/agent_core/state.py:411-431 | A decision whose iteration does not advance is refused without a change; otherwise it is appended and becomes the last one. |
| `AgentStates.AgentState.DoRecordObservation` | backend/agent_core/state.py:433-453 | An observation without a matching tool decision is refused without a change; otherwise it is appended. |
| `AgentStates.AgentState.DoMarkReact` | backend/agent_core/state.py:455-457 | Only the ReAct status changes, and the state is synchronised. |
| `AgentStates.AgentState.DoRecordCall` | backend/agent_core/state.py:459-461 | The call is appended and the state is synchronised. |
| `AgentStates.AgentState.DoRecordResult` | backend/agent_core/state.py:463-465 | The result is appended and the state is synchronised. |
| `AgentStates.AgentState.DoApplyResponse` | backend/agent_core/state.py:467-469 | The response is replaced and its typed projection follows. |
| `ReadingGraphs.PendingCheckpointWriteTool` | backend/agent_graph/reading_agent_graph.py:400-420 | The write tool that a checkpoint is about to run, from the last decision or the route, or the empty string. |
| `ReadingGraphs.KnowledgeSearchCount` | backend/agent_graph/reading_agent_graph.py:151-157 | The number of knowledge searches among the calls. |
| `ReadingGraphs.LatestEvidenceGate` | backend/agent_graph/reading_agent_graph.py:199-203 | The gate of the latest observation that has one. |
| `ReadingGraphs.RunDecideReact` | backend/agent_graph/reading_agent_graph.py:662-798 | The node method is the node function: iteration budget, stop verdict, missing tools, service failure, repeat guard, search budget. |
| `ReadingGraphs.RunExecuteReactTool` | backend/agent_graph/reading_agent_graph.py:814-981 | The node method is the node function: invalid action, both budgets, the tool, confirmation, missing result, observation, budgets again. |
| `ReadingGraphs.RunFinalizeReact` | backend/agent_graph/reading_agent_graph.py:995-1066 | The node method is the node function: missing answer, synthesis, completion unless the limit was reached. |
| `ReadingRuns.WritesTakeEffectAtMostOnce` | backend/agent_graph/reading_agent_graph.py:359-419 | Over any run with crashes, failures and resumes each action of a tool that is registered as a write takes effect at most once, and then its call is committed or the checkpoint points at it for ever. |
| `ReadingRuns.PendingWritesStayPending` | backend/agent_core/runtime.py:130-145 | A checkpoint that points at a pending write accepts no resume, whatever is tried. |
| `ReadingRuns.ObservationAlwaysMatches` | backend/agent_core/state.py:433-453 | Inside the loop the matching guard never rejects the observation of an executed step. |
| `ReadingRuns.FinalizeOnlyLacksWhatTheServiceLeftOut` | backend/agent_graph/reading_agent_graph.py:995-1022 | In a fresh run `finalize_react` lacks an answer only if the service ended the loop with an empty answer before any tool ran; no observation is rejected and no action lacks a tool decision. |
| `ReadingRuns.StopVerdictEndsTheLoop` | backend/agent_graph/reading_agent_graph.py:662-709 | No decision and no tool call follows a stop verdict of the evidence gate. |
| `ReadingOutcomes.StopIsFinal` | backend/agent_graph/reading_agent_graph.py:887-993 | After a search for which the evidence gate says stop, a fresh run is finalized, never enters the loop again, and neither decides nor calls anything, whatever comes next. |
| `ReadingOutcomes.ToolStepGoesOnExactly` | backend/agent_graph/reading_agent_graph.py:814-993 | In a fresh run a tool that returns takes effect once, its call and result are recorded, and the run goes back to the decision exactly if the gate did not stop a search and both budgets have room. |
| `ReadingOutcomes.ToolStepWithoutResult` | backend/agent_graph/reading_agent_graph.py:814-993 | A tool that raises or returns nothing stops the run where it was, with the effect it had; a request for confirmation ends the loop with its call recorded. |
| `ReadingOutcomes.ToolStepOverBudget` | backend/agent_graph/reading_agent_graph.py:831-852 | Without room in a budget no tool runs: the run is finalized with its limit reached. |
| `ReadingOutcomes.DecisionIsFollowedExactly` | backend/agent_graph/reading_agent_graph.py:710-812 | A decision of the service is recorded, and its tool is up next exactly if the call is new and a search is within its budget. |
| `ReadingOutcomes.DecisionOverBudget` | backend/agent_graph/reading_agent_graph.py:669-678 | Without an iteration left nothing is decided: the run is finalized with its limit reached. |
| `ReadingOutcomes.FinishedRunAnswers` | backend/agent_graph/reading_agent_graph.py:995-1066 | A finalization that commits gives the response for good: the synthesis of the tool results, else the final answer; completed unless a limit was reached. It fails exactly if neither is there. |
| `ReadingOutcomes.RouteDecidesThePath` | backend/agent_graph/reading_agent_graph.py:553-597 | A delivered answer goes straight to the end, a complex route into the loop, any other route to the direct execution. |
| `ReadingOutcomes.DirectDeliveryRunsNothing` | backend/agent_graph/reading_agent_graph.py:553-597 | An answer that is already delivered runs nothing, emits nothing and keeps its response to the end. |
| `ReadingOutcomes.ResumesExactlyBeforeNoWrite` | backend/agent_graph/reading_agent_graph.py:359-420 | A stopped run resumes where it was, exactly if the tool it is about to run is not registered as a write. |
| `ReadingRuns.DecisionsComeFromTheService` | backend/agent_graph/reading_agent_graph.py:710-776 | The only decisions recorded in the loop are those that the service returned. |
| `ReadingLimits.LimitEventEndsTheDecisions` | backend/agent_graph/reading_agent_graph.py:522-541 | Over every run with crashes, failures and resumes: at most one limit event and no decision after it, exactly if no attempt that crashed after emitting a limit event is followed by one that emits a limit event or a decision. |
| `ReadingLimits.WithoutCrashesTheLimitEnds` | backend/agent_graph/reading_agent_graph.py:522-541 | Without crashes the limit event is emitted at most once and no decision follows it. |
| `ReadingLimits.CrashCanRepeatTheLimitEvent` | backend/agent_graph/reading_agent_graph.py:522-541 | A fresh run under one policy in which the service repeats its call, the node crashes before its commit and the resumed run announces decision and limit a second time. |
| `ReadingLimits.LostLimitIsRepeated` | backend/agent_graph/reading_agent_graph.py:522-541 | A node that emitted a limit event and crashed emits a limit event or a decision on every later attempt with the same policy, a sink and a result, unless the tool now asks for a confirmation. |
| `ReadingLimits.LostLimitComesBack` | backend/agent_graph/reading_agent_graph.py:522-541 | Over a crash that loses a limit event, any crashes and resumes and a committed attempt: the limit event is the last loop event exactly if those in between are silent and the last one asks for a confirmation. |
| `ReadingRuns.CommittedCallsRespectTheBudgets` | backend/agent_graph/reading_agent_graph.py:831-852 | The committed calls of a fresh run stay within the tool-call and search budgets, through failures, crashes and resumes. |
| `ReadingRuns.ExecutedActionsAreDistinct` | backend/agent_graph/reading_agent_graph.py:137-157 | In a fresh run without resumes the executed actions are pairwise distinct (tool, arguments) pairs, and the searches among them stay within min(search budget, call budget). |
| `ReadingRuns.CommittedCallsAreDistinct` | backend/agent_graph/reading_agent_graph.py:137-157 | In every fresh run the committed calls of the loop are pairwise distinct (tool, arguments) pairs, through crashes and resumes and whatever the policies are. |
| `ReadingRuns.VisitsAreBounded` | backend/agent_graph/reading_agent_graph.py:294-330 | A fresh run visits at most 7 + 2 · min(iterations, calls) nodes, plus one for each resume. |
| `ReadingRuns.RunsTerminate` | backend/agent_graph/reading_agent_graph.py:801-812 | So it finishes or stops for every sequence of decisions, results and failures. |
| `DocumentAnalyst.RetrieveEvidence` | backend/agent_graph/document_analyst_graph.py:160-176 | The loop computes the retrieval function. |
| `DocumentAnalyst.RetrievalIsScoped` | backend/agent_graph/document_analyst_graph.py:160-176 | One packet for each evidence id, all of them hits for a requested document. |
| `DocumentAnalyst.RetrievalIsComplete` | backend/agent_graph/document_analyst_graph.py:160-176 | Exactly the last hit of each evidence id among the hits for requested documents is kept, so that every such hit has its id there. |
| `DocumentAnalyst.VerifyArtifact` | backend/agent_graph/document_analyst_graph.py:188-452 | The loops compute the analysis that the gate stores. |
| `DocumentAnalyst.PassedAnalysisIsSupported` | backend/agent_graph/document_analyst_graph.py:188-373 | A PASSED analysis has complete attested coverage and a supported value in each required field. |
| `DocumentAnalyst.AnalysisPassesExactly` | backend/agent_graph/document_analyst_graph.py:188-373 | An analysis is PASSED exactly if it claims coverage that is attested for each document, has a value and a retrieved citation in each of the six fields, and no open question without one; else PARTIAL. |
| `DocumentAnalyst.AnalysisKeepsTheDraft` | backend/agent_graph/document_analyst_graph.py:196-214 | The fields hold the drafted values, stripped and not blank, and the drafted evidence that was retrieved. |
| `DocumentAnalyst.ClaimsAreTheValues` | backend/agent_graph/document_analyst_graph.py:225-232 | The claims are exactly the values of the seven fields, numbered, each under the evidence of its field. |
| `DocumentAnalyst.AnalysisIsGrounded` | backend/agent_graph/document_analyst_graph.py:188-233 | Whatever is drafted, only packets retrieved for a requested document are cited. |
| `ResearchSynthesizer.LoadDocumentArtifacts` | backend/agent_graph/research_synthesizer_graph.py:187-234 | The loop and the stable sort by document and artifact id compute the loaded documents and the issues. |
| `ResearchSynthesizer.LoadedDocumentsAreInScope` | backend/agent_graph/research_synthesizer_graph.py:187-234 | Each loaded document is a stored, unaltered analysis of an allowed document, they come in the order of their ids, and every other reference is an error. |
| `ResearchSynthesizer.ValidReferencesLoad` | backend/agent_graph/research_synthesizer_graph.py:187-234 | Valid references load exactly their documents, sorted, and raise no issue. |
| `ResearchSynthesizer.SortKeepsDocuments` | backend/agent_graph/research_synthesizer_graph.py:233 | Sorting the documents keeps each as often as it is there. |
| `ResearchSynthesizer.GateAllCells` | backend/agent_graph/research_synthesizer_graph.py:302-371 | The cell loops compute the gated cells, the issues and the seen keys. |
| `ResearchSynthesizer.VerifyComparison` | backend/agent_graph/research_synthesizer_graph.py:257-444 | The method computes the stored comparison, or its rejection by the limits of the draft, of the cells, evidence, inputs and issues, and of the message that names the partial inputs. |
| `ResearchSynthesizer.GateHolds` | backend/agent_graph/research_synthesizer_graph.py:302-444 | For every draft: each (dimension, document) pair once, only input evidence cited; FAILED exactly without documents; PASSED implies two or more passed and complete inputs and a value and evidence in every cell. |
| `ResearchSynthesizer.SynthesizeCells` | backend/agent_graph/research_synthesizer_graph.py:50-111 | The loops compute the cells of the deterministic draft. |
| `ResearchSynthesizer.AllCellsReport` | backend/agent_graph/research_synthesizer_graph.py:57-76 | Four cells for each document, in order: the values of its methods, datasets, experiments and limitations, each under the evidence of the field, with the datasets as the conditions of the experiments. |
| `ResearchSynthesizer.DeterministicComparisonPasses` | backend/agent_graph/research_synthesizer_graph.py:50-519 | For two or more ready documents, and the reviews that a formal objective asks for, the deterministic comparison is stored exactly if its inputs fit the size limits, and then PASSED without an issue, with cells that report the analyses; its result can be built exactly for task ids of up to 254 characters. |
| `ResearchSynthesizer.AnalysesOfOneDocumentPass` | backend/agent_graph/research_synthesizer_graph.py:373-444 | The gate counts artifacts: two or more passed analyses of one document and a cell for each dimension are a PASSED comparison, if they fit. |
| `ResearchSynthesizer.PassedCoversTwoDocumentsExactly` | backend/agent_graph/research_synthesizer_graph.py:302-444 | For every draft: the stored cells cover exactly the documents of the inputs, so that a PASSED comparison covers two or more exactly if the inputs are of two or more. |
| `ResearchSynthesizer.DeterministicComparisonPassesExactly` | backend/agent_graph/research_synthesizer_graph.py:50-444 | A stored deterministic comparison of ready documents is PASSED exactly if there are two or more, all distinct, and a formal objective has its reviews. |
| `ResearchSynthesizer.OneDocumentCanPass` | backend/agent_graph/research_synthesizer_graph.py:373-444 | Two concrete analyses of one document give a PASSED comparison that covers this document only. |
| `ResearchSynthesizer.StoredWithoutResult` | backend/agent_graph/research_synthesizer_graph.py:494-519 | A concrete PASSED comparison with a task id of 255 characters is stored, and its result cannot be built. |
| `ComparisonVerdicts.ComparisonPassesExactly` | backend/agent_graph/research_synthesizer_graph.py:257-444 | For every draft: a stored comparison is PASSED exactly if two or more inputs, all passed and complete, one clean cell for each pair and no other, supported hypotheses and the reviews are there. |
| `ComparisonVerdicts.StoredCellsAreDrafted` | backend/agent_graph/research_synthesizer_graph.py:302-371 | For every draft: the first cell drafted for a pair is stored with its value, conditions and unknown mark, and the evidence that the inputs have. |
| `ComparisonVerdicts.DeterministicHypotheses` | backend/agent_graph/research_synthesizer_graph.py:101-110 | The hypotheses of a stored deterministic comparison are those of the memory, each with its text and its item as the basis. |
| `ComparisonVerdicts.AgreeExactly` | backend/agent_graph/research_synthesizer_graph.py:80-87 | A consensus is counted exactly if all documents have one value that is not empty. |
| `ComparisonVerdicts.DifferExactly` | backend/agent_graph/research_synthesizer_graph.py:80-91 | A conflict is counted exactly if two documents have different values that are not empty. |
| `AcademicWriter.LoadInputs` | backend/agent_graph/academic_writer_graph.py:302-334 | The loop computes the accepted inputs and the issues. |
| `AcademicWriter.ValidInputsAreLoaded` | backend/agent_graph/academic_writer_graph.py:302-334 | The loaded artifacts are those that the valid references name, in order, and every other reference is an error. |
| `AcademicWriter.GateAllParagraphs` | backend/agent_graph/academic_writer_graph.py:633-752 | The paragraph loop computes the kept paragraphs, the issues, the seen ids, and whether each issue could name its paragraph. |
| `AcademicWriter.VerifyManuscript` | backend/agent_graph/academic_writer_graph.py:633-821 | The method computes the stored section, or its rejection by the limits of claims, text, evidence, input artifacts, missing inputs and issues. |
| `AcademicWriter.SectionGateHolds` | backend/agent_graph/academic_writer_graph.py:633-752 | For every draft: distinct paragraphs that cite only known evidence; PASSED implies that facts cite evidence and that experiment results rest on user evidence alone. |
| `SectionVerdicts.SectionPassesExactly` | backend/agent_graph/academic_writer_graph.py:633-752 | For every draft: a stored section is PASSED exactly if no input is refused or missing, there is text, the ids are distinct and each paragraph has the evidence its category takes; else PARTIAL. |
| `SectionVerdicts.StoredParagraphsAreDrafted` | backend/agent_graph/academic_writer_graph.py:633-727 | For every draft with distinct ids: each paragraph with text is stored as drafted, stripped, with the evidence that is there. |
| `SectionVerdicts.EmptySectionIsAPlaceholder` | backend/agent_graph/academic_writer_graph.py:728-752 | A draft without text becomes one placeholder without evidence, PARTIAL, and names what is missing. |
| `SectionVerdicts.ExperimentDraftIsTheUsers` | backend/agent_graph/academic_writer_graph.py:206-216 | An experiment section is drafted from the user's items alone: one paragraph each, in order, under its evidence. |
| `SectionVerdicts.ExperimentSectionPasses` | backend/agent_graph/academic_writer_graph.py:206-216 | Whatever is stored of such a draft is PASSED and has every item of the user. |
| `SectionVerdicts.AnalysisStatements` | backend/agent_graph/academic_writer_graph.py:227-231 | The statements of an analysis are its contributions, methods and limitations, each under all its evidence. |
| `AcademicWriter.DeterministicSectionPasses` | backend/agent_graph/academic_writer_graph.py:217-254 | A section drafted from citable comparisons and any user material is stored exactly for task ids of up to 233 characters, up to 512 evidence ids and up to 256 comparisons, and then PASSED without an issue; its paragraphs state the values of the first eight cells, in order, under their evidence. |
| `GroundingPipeline.ComparisonComposes` | backend/agent_graph/research_synthesizer_graph.py:187-444 | Passed analyses of two or more distinct documents, in any order, give a comparison that is stored exactly if its inputs fit, and then PASSED, with four cells for each analysis that report its fields and citations that all go back to packets retrieved for a requested document; its result can be built exactly for task ids of up to 254 characters. |
| `GroundingPipeline.SectionComposes` | backend/agent_graph/academic_writer_graph.py:302-821 | The section written from such comparisons, next to any user material, is stored exactly if task id, evidence and number of comparisons fit, and then PASSED; each paragraph states a field of one of the analyses under the evidence of that field, and its citations go back to retrieved packets. |
| `GroundingPipeline.AllReferencesAreTraceable` | backend/agent_graph/document_analyst_graph.py:160-176 | Every evidence id of the analyses belongs to a packet retrieved for a requested document. |
| `ResearchMemory.ResearchMemoryStore.ReplaceNoteMemory` | app/research/memory.py:467-677 | Replaced exactly if the input is valid, each entity has a name and the database runs all statements; then the tables of the replacement function. A nameless draft or a failing statement, in the middle of the insertions as well, leaves the old tables. |
| `ResearchMemory.ResearchMemoryStore.OpenExtraction` | app/research/memory.py:490-543 | Creates or refreshes the extraction row and deletes the old rows of the note, if all its statements run. |
| `ResearchMemory.ResearchMemoryStore.InsertClaims` | app/research/memory.py:545-607 | Insert-or-ignore of the claims, their evidence and the recorded ids, as a fold over the drafts, if all its statements run. |
| `ResearchMemory.ResearchMemoryStore.UpsertEntities` | app/research/memory.py:609-622 | Upserts entities and records names and aliases; stops exactly at the first draft without a name or at the statement that fails. |
| `ResearchMemory.ResearchMemoryStore.StoreEntity` | app/research/memory.py:378-464 | One upsert: the row of the key is updated under its old id, or a row with a fresh id is added. |
| `ResearchMemory.MergeAliases` | app/research/memory.py:440-449 | The alias loop: no repeats, no blanks, not the name itself, at most twenty. |
| `ResearchMemory.ResearchMemoryStore.InsertRelations` | app/research/memory.py:624-662 | Relations with known end points, insert-or-ignore, with the claim that their index names, if all its statements run. |
| `ResearchMemory.ResearchMemoryStore.DeleteNoteMemory` | app/research/memory.py:679-694 | Deletes the extraction with its claims, evidence and relations, and tells whether there was one; a failing statement leaves the old tables. |
| `ResearchMemoryNotes.DeleteIsExact` | app/research/memory.py:679-694 | A deletion leaves exactly the rows of the other notes, in order, and all entities; it changes the store exactly if the note has an extraction. |
| `ResearchMemoryNotes.DeletedRowsAreGone` | app/research/memory.py:207-251 | No extraction, claim, evidence or relation of the note is left, and every row of another note is. |
| `ResearchMemoryNotes.ReplacedExtraction` | app/research/memory.py:490-543 | After a replacement the note has one extraction row with the version and prompt of the draft; id and creation time are those of the row before, if there was one. |
| `ResearchMemoryInvariant.EveryHistoryIsWellFormed` | app/research/memory.py:184-263 | Every history of replacements and deletions, failing or not, keeps keys unique and all references live. |
| `ResearchMemoryInvariant.ReplaceWF` | app/research/memory.py:467-677 | A replacement keeps the store well formed. |
| `ResearchMemoryInvariant.DeleteWF` | app/research/memory.py:679-694 | A deletion keeps the store well formed. |
| `ResearchMemoryReplace.ReplaceIsExact` | app/research/memory.py:490-662 | The note's claims become the first occurrences of distinct (type, normalized text) among its drafts with text, its evidence and relations are new, and all rows of other notes stay. |
| `ResearchMemoryReplace.NoteClaimIds` | app/research/memory.py:545-585 | Each draft is recorded under the claim that holds its key, a blank one under none. |
| `ResearchMemoryText.SameNormalizedExactly` | app/research/memory.py:42-43 | Texts count as the same exactly if they have the same words in the same order, whatever their case and white space. |
| `ResearchMemoryText.WordsAroundSpace` | app/research/memory.py:42-43 | White space separates words and is no part of them. |
| `ResearchMemoryText.CleanExactly` | app/research/memory.py:35-39 | Cleaning removes NUL characters and outer white space and then cuts at the limit. |
| `ResearchMemoryText.KindIsDrafted` | app/research/memory.py:565 | A kind is the drafted one, up to 128 characters, or the default if that is blank. |
| `ResearchMemoryText.ConfidenceIsClamped` | app/research/memory.py:46-50 | A confidence is the nearest number from 0 to 1. |
| `ResearchMemoryReplace.NoteEvidence` | app/research/memory.py:586-607 | Each draft with text and an excerpt has one evidence row, of the claim with its key and with the span of the excerpt. |
| `ResearchMemoryReplace.SpanIsFirstOccurrence` | app/research/memory.py:366-375 | The span is the first occurrence of the excerpt without trailing white space, or (-1, -1) if there is none. |
| `ResearchMemoryReplace.SpanCanBeShorter` | app/research/memory.py:366-375 | For 3999 letters, a blank and a letter the stored excerpt has 4000 characters and its span 3999. |
| `ResearchMemoryGraph.ReplacedGraphIsExact` | app/research/memory.py:609-662 | After a replacement each entity draft has the row of its key, all other entity rows are unchanged, and the relations of the note are the first occurrences of the drafts whose end points the entity drafts name. |
| `ResearchMemoryEntities.ReplacedEntitiesAreTraced` | app/research/memory.py:378-464 | Every entity row has the name and the last description that is not blank of the drafts for its key, or those it had, its times, no alias but its own and theirs, and theirs in some spelling while the lists have room. |
| `ResearchMemoryGraph.NamesAreRecorded` | app/research/memory.py:609-622 | A name or alias stands for the row of the last draft that has it. |
| `ResearchMemoryGraph.NoteRelationsAreFirsts` | app/research/memory.py:624-662 | The relations of the note are one row for each distinct (source, predicate, target, claim) among the drafts that resolve, in order. |
| `ResearchMemoryRepeat.RepeatedReplaceOnlyRefreshes` | app/research/memory.py:467-677 | The same replacement again leaves the same store up to fresh ids and times. |
| `ResearchMemoryRepeat.RepeatAfterAnyHistory` | app/research/memory.py:467-677 | So it does after any history of the store, with failing calls in it. |
| `ResearchMemoryRepeat.EveryHistoryHasMergedAliases` | app/research/memory.py:440-449 | Every stored alias list is merged: no repeats, at most twenty. |
| `TranslationCaches.SQLiteTranslationStore.constructor` | app/translation/sqlite_cache.py:71-124 | Opening with history off erases stored source texts; a failure makes the store unavailable. |
| `TranslationCaches.SQLiteTranslationStore.Get` | app/translation/sqlite_cache.py:139-191 | The row of the key, or nothing when it is missing or a statement fails. |
| `TranslationCaches.SQLiteTranslationStore.Set` | app/translation/sqlite_cache.py:193-249 | Upserts the row; the source text is written only with history on. |
| `TranslationCaches.SQLiteTranslationStore.SetHistoryEnabled` | app/translation/sqlite_cache.py:297-315 | Switching history off erases stored source texts. |
| `TranslationCaches.TranslationCache.Get` | app/translation/cache.py:88-118 | The memory entry, else the stored one, which then enters memory; the entry becomes the most recent. |
| `TranslationCaches.TranslationCache.Set` | app/translation/cache.py:120-139 | Writes the store, then memory, where a new key evicts the least recently used one. |
| `TranslationCaches.TranslationCache.Clear` | app/translation/cache.py:141-148 | Empties memory and, if it is usable, the table. |
| `TranslationCaches.TranslationCache.ConfigurePersistence` | app/translation/cache.py:150-195 | Reopens the store when its file or its switch changes, else only toggles history; memory stays. |
| `TranslationCacheRuns.OneKeyExactly` | app/translation/cache.py:74-86 | Two requests have one key exactly if they are for the same languages and their texts differ in line endings and outer white space at most. |
| `TranslationCacheRuns.WriteStoresItsRow` | app/translation/sqlite_cache.py:193-249 | A write leaves the row of its languages and text, with the translation, the times, and the source text if history is on, and every other row as it was. |
| `TranslationCacheRuns.StoredRowIsServed` | app/translation/sqlite_cache.py:139-191 | A lookup beyond memory returns the translation of the row, under its provider or the default name. |
| `TranslationCacheRuns.ConfigureSetsWhatItNames` | app/translation/cache.py:150-195 | A configuration sets what it names, keeps what it omits, and opens the store for the new file; memory stays. |
| `TranslationCacheRuns.LookupsReturnTheLastWrite` | app/translation/cache.py:88-148 | Under any failures a lookup returns nothing or the last write for its languages and its text since the last clear or the opening; while the store is usable it returns exactly that. |
| `TranslationCacheRuns.MemoryIsStored` | app/translation/cache.py:120-139 | While the store is usable every key in memory is a row with the same last write, so that eviction loses nothing. |
| `TranslationCacheRuns.RecentEntriesAreServed` | app/translation/cache.py:88-139 | Whatever happens to the store, the value last set for languages and a text is served until as many other translations as the cache holds have been asked for. |
| `TranslationCacheRuns.NoSourceTextWhileHistoryIsOff` | app/translation/sqlite_cache.py:297-315 | While history is off and the store usable no row of its file holds source text, over opens, writes, toggles and failures. |
| `TranslationCacheRuns.OldFileIsCleanExactly` | app/translation/cache.py:150-195 | Whatever arguments switch history off: the file configured before has no source text afterwards exactly if it had none or the switch reaches it. |
| `TranslationCacheRuns.OldFileIsCleanExactlyAfterAnyRun` | app/translation/cache.py:150-195 | So it is after any run of a cache from its construction. |
| `TranslationCacheRuns.OldFileKeepsItsSourceText` | app/translation/cache.py:171-191 | A concrete text stays in the old file when the cache moves to another file, or is disabled, while history is switched off. |
| `ControlSearch.NearIsReachability` | app/selection/uia_provider.py:338-363 | Nearness within `d` edges is the existence of a path of at most `d` edges. |
| `ControlSearch.BoundedDescendants` | app/selection/uia_provider.py:338-363 | At most 64 distinct controls other than the root in non-decreasing depth of at most six; all such controls if fewer than 64; never a farther one before a nearer one. |
| `ControlSearch.AppendControlChain` | app/selection/uia_provider.py:298-315 | Appends the first nine distinct controls of the parent chain that are not there yet. |
| `ControlSearch.AncestorsAreDistinct` | app/selection/uia_provider.py:298-315 | The chain has at most nine controls, none twice, each the parent of the one before. |
| `ControlSearch.ChainIsExact` | app/selection/uia_provider.py:298-315 | The chain starts with the control and goes from parent to parent until it has nine controls, has no parent or closes. |
| `ControlSearch.AppendedIsUnion` | app/selection/uia_provider.py:287-295 | Unique appending keeps what is there and adds every other control once. |
| `ControlSearch.CandidateControls` | app/selection/uia_provider.py:190-238 | The candidates are the three chains and the search result below the window, in this order. |
| `ControlSearch.CandidatesAreDistinct` | app/selection/uia_provider.py:190-238 | No candidate repeats, and there are no others. |
| `ControlSearch.CandidatesComeInOrder` | app/selection/uia_provider.py:190-238 | Candidates are ordered by where they come first among the chains of the point, of the focus and of the window and the controls below it. |
| `Chunking.SplitOversizedBlock` | app/ai/chunking.py:14-52 | The recursion over sentences, blanks and hard cuts computes the pieces of a block. |
| `Chunking.SplitText` | app/ai/chunking.py:55-93 | The paragraph loop computes the chunks, or refuses a chunk size below 256. |
| `ChunkingMeaning.SplitBlockKeeps` | app/ai/chunking.py:14-52 | The pieces of a block have its characters in order and lose no gap between words. |
| `ChunkingMeaning.SplitBlockFits` | app/ai/chunking.py:14-52 | The pieces are not empty and at most as long as allowed. |
| `ChunkingWords.CutIsAtTheLastBlank` | app/ai/chunking.py:40-52 | A hard cut is at the last blank up to the limit if that is in the second half; at the limit only if there is none. |
| `ChunkingWords.LongWordIsCut` | app/ai/chunking.py:40-52 | A word that is longer than the limit is cut at the limit. |
| `ChunkingMeaning.ParagraphsKeep` | app/ai/chunking.py:67-78 | Splitting at paragraph breaks loses nothing, and no part but a break contains one. |
| `ChunkingMeaning.SplitKeepsTheText` | app/ai/chunking.py:55-93 | The chunks are not empty, not too long, and lose no character, no white space between words and no paragraph break. |
| `ChunkingWords.SplitCutsNoWord` | app/ai/chunking.py:14-93 | Without a run of more than half the chunk size between two blanks the chunks have exactly the words of the text. |
| `ChunkingWords.PiecesFillChunks` | app/ai/chunking.py:67-93 | No two chunks in a row of one paragraph would fit into one. |
| `ChunkingWords.SplitFillsChunks` | app/ai/chunking.py:55-93 | For a text of paragraphs with empty lines between them, whose pieces end in words: no two chunks in a row would fit into one. |
| `ChunkingWords.SentencesFillChunks` | app/ai/chunking.py:20-36 | No two chunks in a row of sentences that fit on their own would fit into one. |
| `ChunkingMeaning.MergeKeepsChunks` | app/ai/chunking.py:96-99 | Merging keeps the words of all chunks and puts a paragraph break between two chunks. |
| `ChunkingMeaning.MergeIsTheJoin` | app/ai/chunking.py:96-99 | The merged text is the stripped chunks that are not blank, with an empty line between two. |
| `ChunkingMeaning.SplitAndMerge` | app/ai/chunking.py:55-99 | Splitting and merging joins no two words and no two paragraphs, and loses or reorders no character. |
| `ChunkingWords.SplitAndMergeKeepWords` | app/ai/chunking.py:55-99 | Nor does merging change a word of such a text. |
| `Normalizers.NormalizeText` | app/translation/normalizer.py:27-64 | The line loop computes the normal form, its cut, or the refusal. |
| `Normalizers.NormalIsRendered` | app/translation/normalizer.py:40-54 | The normal form is the rendering of the characters of the text and of the gaps between them. |
| `Normalizers.NormalIsShortest` | app/translation/normalizer.py:40-54 | No text with the same characters and gaps is shorter than the normal form. |
| `Normalizers.SameNormalForm` | app/translation/normalizer.py:40-54 | Two texts have one normal form exactly if they have the same characters and gaps. |
| `Normalizers.NormalFormsAreFixedPoints` | app/translation/normalizer.py:40-54 | The fixed points are exactly the texts without runs of blanks, blanks at line ends or two adjacent blank lines. |
| `Normalizers.NormalizedText` | app/translation/normalizer.py:27-64 | A result is in normal form and within the limit, with all words and gaps, or with the first ones if it was cut; exactly blank texts and too long ones are refused. |
| `Normalizers.NormalizeIsIdempotent` | app/translation/normalizer.py:27-64 | Normalizing again changes nothing, cut or not, and a normalized text is its own cache key. |
| `ClipboardSelection.ClipboardSelectionProvider.BeforeCopy` | app/selection/clipboard_provider.py:86-138 | Text that appears before the first write is the selection and is left alone; otherwise the clipboard still holds the snapshot. |
| `ClipboardSelection.ClipboardSelectionProvider.Attempt` | app/selection/clipboard_provider.py:149-190 | One attempt sends the shortcut exactly if the keyboard is safe and nothing has been written since the sentinel, and leaves any other content alone. |
| `ClipboardSelection.ClipboardSelectionProvider.Copy` | app/selection/clipboard_provider.py:140-208 | The text that an undisturbed shortcut produces, at once or while the provider polls, is the result; shortcuts are only sent over the sentinel. |
| `ClipboardSelection.ClipboardSelectionProvider.WaitForClipboardChange` | app/selection/clipboard_provider.py:309-345 | Waiting succeeds exactly if something is written before the deadline and the last poll, and ends with the first writes. |
| `ClipboardSelection.ClipboardSelectionProvider.RestoreIfOwned` | app/selection/clipboard_provider.py:211-219 | The snapshot is written exactly if the clipboard still has the token and text that the provider knows. |
| `ClipboardSelection.ClipboardSelectionProvider.GetSelectedText` | app/selection/clipboard_provider.py:75-235 | Under every interleaving the clipboard ends with the last content written by someone else, or with the snapshot when the last write was taken for the result of the shortcut; the text returned was written during the call; the shortcut is sent a bounded number of times, each time over the sentinel; and if nobody interferes, the text that the shortcut produces is returned. |
| `ClipboardSelection.SentinelIsGone` | app/selection/clipboard_provider.py:140-151 | A call never leaves its sentinel on the clipboard. |
| `ClipboardSelection.AloneNothingChanges` | app/selection/clipboard_provider.py:211-219 | Without writes by others the clipboard content is what it was. |
| `SettingsFile.PrintText` | app/infrastructure/settings.py:164-185 | The loops print the text of the listing. |
| `SettingsFile.EscapedString` | app/infrastructure/settings.py:152-161 | A printed string is read back, and is rejected exactly if it has U+007F. |
| `SettingsFile.LiteralIsRead` | app/infrastructure/settings.py:152-161 | Every printed value is read back as itself, with the same exception. |
| `SettingsFile.PrintedIsRead` | app/infrastructure/settings.py:104-185 | What is printed is parsed to the same sections, in any order of sections and keys, or rejected because of U+007F. |
| `Settings.SafeUserData` | app/infrastructure/settings.py:123-149 | The loops compute the safe data. |
| `Settings.SafeKeeps` | app/infrastructure/settings.py:123-149 | Filtering changes nothing exactly if the data is whitelisted, scalar, without empty sections and reserved hotkeys. |
| `Settings.ReservedSpellsCopy` | app/infrastructure/settings.py:113-120 | A hotkey is reserved exactly if it spells Ctrl+C: the letter c and a name of the control key between plus signs, in any order and case, and nothing but white space otherwise. |
| `Settings.MergeTables` | app/infrastructure/settings.py:86-101 | The recursive loop computes the deep merge. |
| `Settings.SettingsManager.Save` | app/infrastructure/settings.py:257-290 | Updates the user data, writes its text and merges it over the defaults; a failed write changes the user data alone. |
| `Settings.SettingsManager.Reload` | app/infrastructure/settings.py:233-240 | The user data is the safe part of what the file holds, and the effective data the merge over the defaults. |
| `Settings.SaveThenReload` | app/infrastructure/settings.py:233-290 | A reload after a save finds the saved user data exactly if no string has U+007F, and none otherwise. |
| `Settings.SaveIsUpdate` | app/infrastructure/settings.py:257-261 | Each key has the value of the update if that is safe, else its old value. |
| `Settings.UserSettingsAreInEffect` | app/infrastructure/settings.py:233-255 | A user's setting is in effect, a default where there is none, and an old opacity stands for the background's. |
| `Settings.CopyStaysFree` | app/infrastructure/settings.py:113-143 | No saved hotkey of the trigger or the input spells Ctrl+C. |

## Left out

- The graph library, SQLite, pydantic, the LRU library, HTTP, UI automation and the Windows clipboard themselves: nodes that commit, tables with transactions, a recency sequence, a stable graph of controls, and a clipboard with fresh tokens.
- The model calls, prompts, retrieval ranking, evidence scoring and tool bodies: arbitrary choices. One tool call makes at most one effect.
- The orchestration package and the product agent service, which are not part of this model; the effects of a direct route are a single arbitrary step, so that the write guarantee is about the ReAct path only.
- The state that a resumed runtime hands on with cleared confirmations: the graph continues from its own checkpoint.
- Fields of the agent state that no modelled branch reads: conversation, request, reading context and execution projections, provider and model names, evidence lists; action texts and response statuses are kept as what they are recognised as, and the tool name without surrounding white space is a field beside the name.
- Arguments of decisions and calls are texts, because the decision service returns texts (backend/agent_tools/base.py:79-105); the contract allows any JSON value, and the repeat guard compares those.
- The tool registry is fixed during a run, and timeouts and cancellation are failures of a node.
- The size limits of the analysis artifact; those of comparisons and sections are modelled. An artifact that is accepted counts as stored: the store is not modelled as refusing a second artifact with the same id and version and other content.
- Warnings on visual evidence, the consensus and conflict texts, and the outline, revision and review branches of the writer; the keyword checks for formal reviews and experiments are Boolean inputs.
- Hashes are parameters: content hashes of artifacts, the digest in paragraph ids, SHA-256 in cache keys, which is assumed injective where it matters.
- Case folding in the research memory and in hotkeys covers ASCII letters; Unicode case folding is not modelled.
- In the research memory's transactions the connection and the schema count as one statement each.
- The reading side of the research memory, and claim indexes that are no integers.
- History listings of the cache and other processes that write the same file.
- `AgentStates.AgentState.SyncContract`: does not synchronise the conversation, request, reading-context and execution projections, because no modelled branch reads them.
- `ReadingGraphs.RunExecuteReactTool`: does not emit the evidence-gate event and does not build the observation summary, because both only describe the gate verdict and the result that it does model.
- `DocumentAnalyst.VerifyArtifact`: has no warnings on visual evidence and no size limits of the artifact.
- `ResearchSynthesizer.VerifyComparison`: of the consensus, conflict, limitation and direction texts only the lengths of the lists, which are all that can reject a comparison; the artifact that is stored has them.
- `AcademicWriter.VerifyManuscript`: has no reference records and no title; a title is cut to its limit, and a reference can only be refused for metadata of its source, which no comparison carries.
- `ControlSearch.BoundedDescendants`: children and parents are stable functions, so that controls that change during the search, and the sorting by priority, are not modelled.
- `ClipboardSelection.ClipboardSelectionProvider.GetSelectedText`: others write only while the provider sleeps, waits or sends the shortcut, and the adapter does not fail, because a failing adapter cannot prove ownership.
- `Settings.SettingsManager.Reload`: TOML that the printer cannot produce counts as malformed, because only the printed subset of the grammar is modelled; the text of a float is an opaque token.
- The tables of allowed setting names are a parameter.
- Constructors that refuse a size below one (the cache and the normalizer) have it as a precondition, since a Dafny constructor returns no error.
- Logging, configuration clamps, intent routers and request wiring.
