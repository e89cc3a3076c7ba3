# Verification model of the Mellivor kernel

Mellivor is a Python kernel that routes requests to tools and AI providers, runs
workflows of steps, keeps memory, and manages plugins. This project models the parts of
it where branching, mutable state and nondeterminism meet, and proves what each of them
guarantees over every input, run or interleaving. `dafny verify dfyconfig.toml` checks
everything.

- **Workflow engine.** `ParallelGroup` is a transition system for one parallel unit: each
  action is one atomic move of a worker or of the collecting thread, so a list of actions
  is one interleaving and a proof over all lists is a proof over all of them. The cancel
  loop is one action per future, so workers can start a later step between two cancels.
  `ScheduleDependence` says exactly which steps some interleaving leaves out and which groups
  conclude alike under all of them. `ThreadPoolRun` is the same unit as an object whose fields
  change in place.
  `WorkflowOptions`, `WorkflowUnits`, `WorkflowRun` and `WorkflowEngines` add validation,
  grouping, the loop over units and the engine object; `WorkflowTheorems`,
  `WorkflowEquivalences`, `WorkflowContexts`, `WorkflowClosing`, `WorkflowEndings` and
  `WorkflowFailures` state what a whole run guarantees.
- **Tool-call loop and wire translations.** `ToolCalling`, `ChatCompletions` and
  `WireTranslations` model the provider-neutral history and its two wire shapes, and
  `WireContents` says what each of them carries;
  `ToolLoop` is the loop, as a specification over values and as the class that appends to
  its lists; `ToolLoopTheorems` proves the protocol, the conservation of calls and
  which reply ends a run, `ToolLoopTranscript` what each ask carries and each round writes
  down; `ToolLoopReplay` and `AnthropicReplay` prove that what the loop sends
  can be sent again in either shape.
- **Exact vector store.** `VectorMath` proves Cauchy-Schwarz in the form the store computes
  it; `VectorRanking` the order and the best-k list; `VectorStore` and
  `VectorStoreTheorems` the tables, whole histories of changes and queries; `VectorAnswers`
  says what an answer is in scores and identifiers;
  `InMemoryVectorStores` is the store object.
- **Two memory stores.** `MemoryContracts` is the contract over an insertion-ordered dict;
  `SqliteTable`, `SqliteSteps` and `SqliteMemoryStores` are rows under rowids, five SQL
  statements, and the proof that both stores answer alike; `MemorySearches` and
  `SqliteSearches` say what they answer, in terms of the operations before.
- **Plugins.** `PluginLifecycles` is the state machine of one plugin, `PluginFleets` the
  commands over all registered ones, `EngineHistories` whole histories, `AIEngines` the
  object with its cache of lifecycle objects.
- **Embeddings and the request path.** `Embeddings` reassembles a response into request
  order and bounds the retries; `Permissions`, `Dispatch`, `Authorization` and
  `ExecutionEngines` follow a request from its start event to its terminal event.

Calls into code the kernel cannot see are parameters: the outcomes of steps, provider
replies, hooks, plugin callbacks and HTTP attempts are arbitrary functions, so a theorem
over them holds for every behaviour. `math.hypot` and the row format of tags and times enter
through the laws they obey (`VectorContracts.IsHypot`, `SqliteTable.Lawful`), as explicit
hypotheses; of JSON nothing is assumed, and the theorems say exactly which values must come
back from their text as they were.

Where the code and its documentation disagree, the model follows the code:

- `docs/adr/0024-workflow-dynamic-parallel-scheduled-steps.md:306-307` says no public result
  may depend on completion order. `ParallelExample.ResultsDependOnTheInterleaving` gives two
  interleavings of one group with different results. `ScheduleDependence.DependsExactlyWhen` is
  the exact condition: a group concludes alike under all interleavings exactly when none of its
  steps can be cancelled, or some step raises and no step that raises can be; and a step can be
  cancelled exactly when an earlier step stops the group, or a later one does and there is a
  second worker. A workflow that succeeds once ends the same always
  (`WorkflowEndings.SuccessIsScheduleFree`).
- `docs/specs/workflow.md:150` says every run publishes exactly one of completed and failed.
  A run that an exception escapes publishes neither (`WorkflowEndings.RaisingStepClosesNothing`).
  `WorkflowEndings.ClosesExactlyWhen` is the exact condition: every interleaving publishes one
  closing event exactly when the first unit with a stopping or raising outcome has no raising one.
- `docs/specs/execution.md:189` and `src/mellivor_kernel/execution/dispatch.py:76-81` say every
  failure becomes a failed result with one terminal event. An exception with a blank text
  cannot become one, because the result constructor refuses it; the same holds of a
  `validate` that raises an undeclared exception, contrary to
  `src/mellivor_kernel/tools/pipeline.py:21-24`.
  `ExecutionEngines.ReturnsExactlyWhenEveryoneSpeaks` is the exact condition, and
  `ExecutionEngines.SilentExceptionLosesTerminalEvent` an input that fails it.
- `src/mellivor_kernel/memory/in_memory.py:18-21` promises a drop-in replacement.
  The SQLite store is one exactly for entries whose metadata survives JSON
  (`SqliteSteps.AgreementNeedsRoundTrip`); a tuple comes back as a list
  (`SqliteSteps.TupleComesBackAsList`).
- `src/mellivor_kernel/ai_engine/engine.py:185-197` starts every plugin in the registry. A plugin
  that replaced another under the same identifier may not be started
  (`EngineHistories.ReplacementIsNotStarted`). It is exactly when no command came to the
  identifier before, or the first that did found this very plugin
  (`EngineHistories.CommandReachesRegisteredPlugins`).
- `src/mellivor_kernel/execution/tool_loop.py:108-109` says that `error` describes a failure whose
  cause was not exhaustion; an exhausted run carries an error too
  (`ToolLoopTheorems.EndingIsDecided`).
- A provider that answers with no text and no call leaves a turn that cannot be sent again;
  `ToolLoopReplay.EveryHistorySentReplays` and `AnthropicReplay.EveryHistorySentTranslates` say
  that this is the only way.

## Model

| member | source | states |
|---|---|---|
| WorkflowSteps.ReachesEngine | src/mellivor_kernel/workflow/engine.py:264-311 | a step reaches the engine exactly when it is due and its resolver, if any, names a request; otherwise it fails in an orderly way at the stage that held it back, with an error that names the step and carries the resolver's |
| ParallelGroup.ApplyKeepsInv | src/mellivor_kernel/workflow/engine.py:231-252 | every worker, collect and cancel move keeps each future's books consistent, never overfills the pool, and has a collected stopping failure behind every stop |
| ParallelGroup.ApplyDecreases | src/mellivor_kernel/workflow/engine.py:231-252 | the termination measure: every enabled move lowers it |
| ParallelGroup.AnyEnabled | src/mellivor_kernel/workflow/engine.py:231-252 | no deadlock: while a future is uncollected, for any positive concurrency, some move is enabled |
| ParallelGroup.EveryRunIsShort | src/mellivor_kernel/workflow/engine.py:211-262 | any interleaving of n steps makes at most 5n moves and keeps the invariant throughout |
| ParallelGroup.RunGroup | src/mellivor_kernel/workflow/engine.py:211-262 | under every schedule the group runs to an end in which every future has been collected |
| ParallelGroup.SchedulesCoverAllRuns | src/mellivor_kernel/workflow/engine.py:211-262 | every complete interleaving is the run of some schedule, so theorems over schedules are over all of them |
| ParallelResults.EveryStepAccountedFor | src/mellivor_kernel/workflow/engine.py:237-252 | at the end each step is in exactly one of completed, raised and cancelled, with its own outcome, ran at most once, and is cancelled only if another step was collected that failed and does not continue on failure |
| ParallelResults.ExceptionsTakePrecedence | src/mellivor_kernel/workflow/engine.py:254-262 | results are returned exactly when no step that ran raised; a lone exception propagates as itself, several as a group in declared order |
| ParallelResults.GatherGets | src/mellivor_kernel/workflow/engine.py:262 | the returned dict holds each completed step's own result and nothing else |
| ParallelResults.GatherKeys | src/mellivor_kernel/workflow/engine.py:262 | its keys are the completed steps in declared order, whatever the completion order |
| ParallelResults.FirstStoppingFinds | src/mellivor_kernel/workflow/engine.py:412-422 | the result found is the first in declared order that failed although its step does not continue on failure, and none is found exactly when there is none |
| ParallelResults.ConcludeGets | src/mellivor_kernel/workflow/engine.py:254-262 | on a normal return a step has a result exactly when it ran, and it is what the step returned |
| ParallelResults.NoStopMeansAllResults | src/mellivor_kernel/workflow/engine.py:244-262 | a normal return without a stopping failure has a result for every step of the group |
| ParallelResults.NoFailureIsScheduleFree | src/mellivor_kernel/workflow/engine.py:237-262 | if no step would stop the group, every interleaving completes and raises the same steps |
| ParallelResults.StoppingIsScheduleFree | src/mellivor_kernel/workflow/engine.py:143-175 | if no step raises, whether the unit stops is the same for all interleavings, and if it does not the result map is identical and in declared order |
| ParallelResults.SingletonGroup | src/mellivor_kernel/workflow/engine.py:254-262 | a one-step group runs its step once and ends as the step would have inline, a raised exception included |
| ParallelExample.ResultsDependOnTheInterleaving | src/mellivor_kernel/workflow/engine.py:249-252 | one group, two interleavings of the cancel loop: a later step runs though an earlier one was cancelled, and the returned results differ |
| ScheduleDependence.LeftOutExactlyWhen | src/mellivor_kernel/workflow/engine.py:231-252 | a step is left out by some interleaving exactly when an earlier step stops the group, or a later one does and a second worker can hold this one up |
| ScheduleDependence.DependsExactlyWhen | src/mellivor_kernel/workflow/engine.py:228-262 | for every group, raising steps included, all interleavings conclude alike exactly when no step can be left out, or some step raises and none that raises can be left out |
| ThreadPoolRun.GroupRun.constructor | src/mellivor_kernel/workflow/engine.py:228-237 | a group begins with nothing submitted, collected or stopped |
| ThreadPoolRun.GroupRun.SubmitNext | src/mellivor_kernel/workflow/engine.py:232-235 | submission hands over one future at a time, in declared order |
| ThreadPoolRun.GroupRun.Work | src/mellivor_kernel/workflow/engine.py:231-235 | a worker's start, finish or meeting with a cancelled future changes that future only |
| ThreadPoolRun.GroupRun.CollectOne | src/mellivor_kernel/workflow/engine.py:237-250 | collecting records a result or an exception, skips a cancelled future, and enters the cancel loop on the first stopping failure only |
| ThreadPoolRun.GroupRun.CancelOne | src/mellivor_kernel/workflow/engine.py:250-252 | one cancel attempt: it takes effect on a queued future only, and never on the one just collected |
| ThreadPoolRun.GroupRun.Act | src/mellivor_kernel/workflow/engine.py:228-252 | every move of the object is the move of the transition system and keeps the invariant |
| ThreadPoolRun.GroupRun.RunAll | src/mellivor_kernel/workflow/engine.py:211-262 | for every complete interleaving the object ends in the state and with the conclusion of the transition system |
| ThreadPoolRun.GroupRun.RunSchedule | src/mellivor_kernel/workflow/engine.py:211-262 | under any schedule the object runs to the group's end and returns its conclusion; the engine object runs its parallel units this way |
| WorkflowOptions.CheckGroups | src/mellivor_kernel/workflow/options.py:42-53 | accepted exactly when every group is non-empty, its names are non-blank, and no name occurs twice; each error names a fault that is there |
| WorkflowOptions.CheckOptions | src/mellivor_kernel/workflow/options.py:29-60 | the options value is accepted exactly when its names are non-blank and its groups are good; each error names a fault that is there |
| WorkflowOptions.OrderTestIsContiguity | src/mellivor_kernel/workflow/engine.py:401-409 | the sorted-indexes and max-minus-min test passes exactly for the contiguous slices of the declared names |
| WorkflowOptions.CheckContiguity | src/mellivor_kernel/workflow/engine.py:401-409 | the loop over groups accepts exactly when every group is a slice |
| WorkflowOptions.ValidateOptions | src/mellivor_kernel/workflow/engine.py:387-409 | validation accepts exactly when every referenced step is declared and every group is a slice; the error names exactly the undeclared steps, or a group that is no slice |
| WorkflowUnits.GroupIntoUnits | src/mellivor_kernel/workflow/engine.py:356-380 | the in-place grouping loop builds the units of the specification |
| WorkflowUnits.UnitsFlatten | src/mellivor_kernel/workflow/engine.py:356-380 | for accepted options the units, end to end, are the declared steps, and each is one whole group or one ungrouped step |
| WorkflowUnits.UnitsAreGroups | src/mellivor_kernel/workflow/engine.py:356-380 | moreover every group is exactly one unit and no two units are the same |
| WorkflowRun.RunUnitBooks | src/mellivor_kernel/workflow/engine.py:194-262 | a unit starts each of its steps at most once, its results are those of the started steps in declared order, each the step's own outcome from the context given |
| WorkflowTheorems.RunUnitsBooks | src/mellivor_kernel/workflow/engine.py:143-192 | the same books, kept across the loop over units from any unit on |
| WorkflowTheorems.RunIsSound | src/mellivor_kernel/workflow/engine.py:122-192 | over a whole run no step runs twice, results are in declared order, success is exactly an unset stopped_at and then every step has a result; a stop names the first stopping failure in declared order, earlier units ran completely, later ones not at all |
| WorkflowFailures.EndingTells | src/mellivor_kernel/workflow/engine.py:143-192 | a run that ends succeeds exactly when each recorded result succeeded or its step continues on failure; otherwise it stopped at the first declared step of which neither holds, and its error names the step and carries its error |
| WorkflowFailures.SucceedsExactlyWhen | src/mellivor_kernel/workflow/engine.py:143-192 | under any interleaving a run succeeds exactly when every step, given the full results of the units before its own, returns, with a success or as one that continues on failure |
| WorkflowFailures.ContinuingStepsAllRun | src/mellivor_kernel/workflow/engine.py:244-252 | if every step continues on failure and none raises, every step runs, has its result, and the run succeeds, however many fail |
| WorkflowFailures.ConcurrencyIsTheLimit | src/mellivor_kernel/workflow/engine.py:228-235 | in every interleaving at most max_concurrency steps of a unit run at once, or all of them where no limit is set; a queued step with none before it can start exactly when fewer are running |
| WorkflowEquivalences.EveryStepSeesEarlierUnits | src/mellivor_kernel/workflow/engine.py:143-149 | each result is what its step makes of exactly the results of the units before it; the caller's own step_results are seen by the first unit only |
| WorkflowContexts.EveryUnitSeesEarlierUnits | src/mellivor_kernel/workflow/engine.py:143-149 | in every run, also one an exception escapes: the first unit sees the caller's step results, each later unit exactly the results of the units before it in declared order, each made by its step from its own unit's context |
| WorkflowEquivalences.NoGroupsIsSequential | src/mellivor_kernel/workflow/engine.py:143-192 | without parallel groups a run is the plain recursive run, record, stop at the first stopping failure |
| WorkflowEquivalences.WrappingOneStepChangesNothing | src/mellivor_kernel/workflow/engine.py:206-209 | putting any ungrouped step into a group of its own leaves the whole run unchanged, propagated exceptions included |
| WorkflowEquivalences.WrappedIsAcceptable | src/mellivor_kernel/workflow/engine.py:387-409 | the engine takes the options with one more group of one name exactly when the name is declared, non-blank and not yet grouped |
| WorkflowEndings.SuccessIsScheduleFree | src/mellivor_kernel/workflow/engine.py:143-192 | a run that succeeds under one interleaving ends the same, with the same results in order, under every one |
| WorkflowEndings.ClosesExactlyWhen | src/mellivor_kernel/workflow/engine.py:143-192 | every interleaving publishes exactly one closing event exactly when the first unit with a stopping or raising outcome, each unit taken after the full results before it, has no raising one |
| WorkflowEndings.RaisingStepClosesNothing | src/mellivor_kernel/workflow/engine.py:206-208 | one step whose engine call raises: the exception escapes and the started event stays alone |
| WorkflowEngines.Check | src/mellivor_kernel/workflow/engine.py:128-133 | both validations together accept exactly the acceptable options |
| WorkflowClosing.ClosingAgrees | src/mellivor_kernel/workflow/engine.py:151-192 | the closing event agrees with the run: completed counting every step, failed naming the first stopping failure in declared order, or none when an exception escapes |
| WorkflowEngines.WorkflowEngine.RunOneUnit | src/mellivor_kernel/workflow/engine.py:194-209 | a single ungrouped step runs inline, any other unit in a pool of its own, with the specified outcome |
| WorkflowEngines.WorkflowEngine.Drive | src/mellivor_kernel/workflow/engine.py:143-177 | the loop over units with its running context computes the specified run |
| WorkflowEngines.WorkflowEngine.Run | src/mellivor_kernel/workflow/engine.py:102-192 | rejected options run and publish nothing; otherwise the run is the specified one between one started event and its closing event, which an escaping exception leaves out |
| ToolCalling.AssistantMessage | src/mellivor_kernel/providers/tool_calling.py:125-139 | the loop builds an optional text block and one block per call, in order |
| ToolCalling.ToolResultsMessage | src/mellivor_kernel/providers/tool_calling.py:142-158 | a results turn exists exactly for a non-empty list of results, and is a user turn of one result block per result, in order, with its id, text and error flag |
| ChatCompletions.SortBlocks | src/mellivor_kernel/providers/_chat_completions.py:79-116 | the block loop accepts exactly lists of known block types and sorts them into texts, calls and results without losing order |
| ChatCompletions.MessageToChat | src/mellivor_kernel/providers/_chat_completions.py:67-128 | the imperative translator of one message computes its specified meaning, each refusal included |
| ChatCompletions.MessagesToChat | src/mellivor_kernel/providers/_chat_completions.py:36-64 | the loop over messages concatenates the meanings after the optional system entry and stops at the first refusal |
| WireContents.ChatCarries | src/mellivor_kernel/providers/_chat_completions.py:67-128 | what the entries of an accepted message hold, block by block: one entry per result with its id, an error under its prefix and other content as it is; one entry with all calls in order, arguments written out; the joined texts; always the role the kinds of block demand |
| WireContents.JoinsInOrder | src/mellivor_kernel/providers/_chat_completions.py:125-128 | the joined text is the concatenation of its parts in order |
| ChatCompletions.ToolCallsFromChat | src/mellivor_kernel/providers/_chat_completions.py:158-183 | the reader returns all calls in order or the first entry's error |
| WireContents.CallIsRead | src/mellivor_kernel/providers/_chat_completions.py:174-205 | a call is read exactly when id and name are non-blank and its arguments are absent, blank or the text of an object, and then it is that id, name and object |
| WireContents.CallsAreRead | src/mellivor_kernel/providers/_chat_completions.py:173-183 | all calls are read in order exactly when each can be; otherwise the error is that of the first that cannot |
| WireContents.AnthropicCarries | src/mellivor_kernel/providers/claude.py:285-325 | a translated message keeps its role and its text, or its blocks one for one: the same text, call and input, or result with untouched content and the error flag as set |
| WireTranslations.BlocksAgree | src/mellivor_kernel/providers/claude.py:302-325 | block by block the Anthropic shape carries the same texts, calls and results in the same order |
| WireTranslations.TranslationsAgree | src/mellivor_kernel/providers/claude.py:285-325 | for a message both translators accept, the chat entries are an explicit function of the Anthropic message, with errors as the prefixed form |
| WireContents.ResultsAgree | src/mellivor_kernel/providers/_chat_completions.py:104-121 | a results turn in both shapes: entry by block the same id, and the Anthropic block's content, prefixed exactly where that block is marked as an error |
| WireContents.RefusalsAreTrue | src/mellivor_kernel/providers/_chat_completions.py:67-128 | each refusal of either translator names a fault that the message has |
| WireTranslations.WhoAccepts | src/mellivor_kernel/providers/claude.py:285-299 | exactly which messages only the chat side accepts, and exactly which only the Anthropic side accepts, by role and kinds of block |
| WireTranslations.HistoriesAgree | src/mellivor_kernel/providers/_chat_completions.py:59-64 | the same function, over whole histories accepted by both |
| WireTranslations.ToolCallsRoundTrip | src/mellivor_kernel/providers/_chat_completions.py:88-127 | an assistant turn translates to one entry with its text, and reading the entry's calls back gives the same calls in order exactly when each call's arguments survive dumps and loads |
| ToolLoop.Parse | src/mellivor_kernel/execution/tool_loop.py:316-326 | the text, or nothing where it is not a string, and the calls that are calls, in order |
| ToolLoop.ToolCallLoop.Describe | src/mellivor_kernel/execution/tool_loop.py:279-292 | succeeds exactly when every id is registered with a valid spec, and lists the specs in the order asked; otherwise names the first that is not |
| ToolLoop.ToolCallLoop.Reject | src/mellivor_kernel/execution/tool_loop.py:371-380 | one unexecuted record, one rejection event, an error block, and no call of the engine |
| ToolLoop.ToolCallLoop.Handle | src/mellivor_kernel/execution/tool_loop.py:328-369 | one call appends exactly one record and its two events, and reaches the engine as specified |
| ToolLoop.ToolCallLoop.HandleAll | src/mellivor_kernel/execution/tool_loop.py:258-264 | a turn's calls are handled in order and answered by the new records |
| ToolLoop.ToolCallLoop.RunRounds | src/mellivor_kernel/execution/tool_loop.py:223-277 | the while loop over rounds computes the specified run |
| ToolLoop.ToolCallLoop.Run | src/mellivor_kernel/execution/tool_loop.py:212-277 | refused exactly for no messages, no tools, an unusable tool or provider, and then nothing has happened; otherwise the specified run, over the specs of exactly the tools asked for |
| ToolLoopTheorems.ContinueAdds | src/mellivor_kernel/execution/tool_loop.py:248-264 | a round that continues adds one turn of calls and at once one turn that answers them position by position |
| ToolLoopTheorems.BookedTells | src/mellivor_kernel/execution/tool_loop.py:344-369 | a call reaches the engine exactly when its name was offered and the hook allowed it, succeeds exactly when the engine says so, and its text is the rendered payload, the engine's error, the hook's reason or the fixed text for a missing one; its block repeats that text, marked as an error exactly if it did not succeed |
| ToolLoopTheorems.LoopIsSound | src/mellivor_kernel/execution/tool_loop.py:223-277 | every run extends the caller's history well paired; records, result blocks and events list the same calls in the same order; it ends in exactly one of answered, failed and exhausted, with provider calls equal to iterations, never above the bound, exhausted only at it |
| ToolLoopTranscript.EveryRoundIsTold | src/mellivor_kernel/execution/tool_loop.py:219-277 | the whole transcript: ask r carries the tools on offer and exactly the first messages of the result, the caller's and two for each of the r rounds before it; each round wrote its reply's text and calls, then one answer per call from the record of that call, announced with the number of the round |
| ToolLoopTranscript.ReplyIsRead | src/mellivor_kernel/execution/tool_loop.py:316-326 | a reply is read as its text, or none where that is not a string, and as those of its entries that are calls, in order |
| ToolLoopTheorems.EndingIsDecided | src/mellivor_kernel/execution/tool_loop.py:229-277 | a run is exhausted exactly when every reply up to the bound asks for tools; otherwise the first that does not decides it, answered with its text if it succeeded with a payload, failed with its error if not, and no later reply is asked for |
| ToolLoopReplay.AssistantTurnTranslates | src/mellivor_kernel/providers/tool_calling.py:132-139 | an assistant turn translates to one entry, and is refused exactly when it has neither text nor call |
| ToolLoopReplay.AnswersTranslate | src/mellivor_kernel/providers/_chat_completions.py:104-121 | the results of a turn become one tool entry each, in order, with its id and its content, prefixed exactly if it is an error |
| ToolLoopReplay.EveryHistorySentReplays | src/mellivor_kernel/execution/tool_loop.py:229-264 | every history sent is accepted by the chat translator if the caller's was, stays well paired if it was, and the returned history can be sent again exactly unless the model answered with nothing |
| ToolLoopReplay.SystemEntryKeepsPairing | src/mellivor_kernel/providers/_chat_completions.py:59-64 | the optional system entry comes first, with its text, changes nothing behind it and keeps the list well paired |
| ToolLoopReplay.ChatLength | src/mellivor_kernel/providers/_chat_completions.py:67-128 | the length of the translation is the sum of the per-message fan-outs |
| AnthropicReplay.AssistantTurnAccepted | src/mellivor_kernel/providers/claude.py:292-299 | an assistant turn is refused exactly when it has neither text nor calls |
| AnthropicReplay.EveryHistorySentTranslates | src/mellivor_kernel/providers/claude.py:285-325 | every history the loop sends is accepted by the Anthropic translator if the caller's messages were, and the returned one exactly unless the model answered with nothing |
| VectorMath.NormPositive | src/mellivor_kernel/memory/_vector/contracts.py:107-108 | the norm is positive exactly for the vectors with a non-zero component |
| VectorMath.UnitVector | src/mellivor_kernel/memory/_vector/in_memory.py:117-123 | a vector divided by its norm has unit length |
| VectorMath.CosineIsBounded | src/mellivor_kernel/memory/_vector/in_memory.py:117-124 | Cauchy-Schwarz for every dimension: the computed sum is the inner product over the norms and lies in [-1, 1], so the clamp changes nothing |
| VectorMath.SelfCosine | src/mellivor_kernel/memory/_vector/in_memory.py:117-124 | the score of a vector with itself is 1 |
| VectorMath.DotSymmetric | src/mellivor_kernel/memory/_vector/in_memory.py:120-123 | the inner product does not depend on the order of its arguments |
| VectorMath.ScalingKeepsScore | src/mellivor_kernel/memory/_vector/in_memory.py:117-124 | positive scaling scales the norm and leaves every score unchanged |
| VectorContracts.NormalizedAdmits | src/mellivor_kernel/memory/_vector/contracts.py:86-109 | exactly the non-zero numeric vectors of the required length are admitted, component by component; a refusal names a fault that is there |
| VectorContracts.NormalizeVector | src/mellivor_kernel/memory/_vector/contracts.py:86-109 | the loop computes that admission with the errors in the source's order |
| VectorContracts.SnapshotMetadata | src/mellivor_kernel/memory/_vector/contracts.py:112-128 | the snapshot equals the metadata, or names its first unacceptable item |
| VectorContracts.MetadataAdmitted | src/mellivor_kernel/memory/_vector/contracts.py:117-127 | metadata is admitted exactly when every key is non-blank and every value null, a truth value, a number or a text; otherwise the first offending item is reported, its key before its value |
| VectorContracts.NamespaceByCharacter | src/mellivor_kernel/memory/_vector/in_memory.py:15 | which namespaces are valid, one character at a time: at most 128, a letter or digit first, then also dots, underscores and hyphens |
| VectorContracts.MakeRecord | src/mellivor_kernel/memory/_vector/contracts.py:29-35 | a record is built exactly for a non-blank id, a non-zero numeric vector and admitted metadata, and holds just these; a refusal names the fault |
| VectorContracts.IdsAdmitted | src/mellivor_kernel/memory/_vector/in_memory.py:104-114 | the id check passes exactly for non-blank ids without duplicates; otherwise it reports what is wrong with the first offending one |
| VectorContracts.ValidateRecordIds | src/mellivor_kernel/memory/_vector/in_memory.py:104-114 | the loop with its growing set reports the first offending id |
| VectorRanking.BeforeIsTotal | src/mellivor_kernel/memory/_vector/in_memory.py:76 | descending score then id is a strict total order on matches with distinct ids |
| VectorRanking.BeforeIsTransitive | src/mellivor_kernel/memory/_vector/in_memory.py:76 | and it is transitive, over Python's order of strings |
| VectorRanking.SortedTakesBest | src/mellivor_kernel/memory/_vector/in_memory.py:76-77 | sorting and cutting gives the best k: in order, and nothing left out precedes anything kept |
| VectorRanking.BestIsUnique | src/mellivor_kernel/memory/_vector/in_memory.py:76-77 | there is only one best-k list |
| VectorStoreTheorems.UpsertAccepts | src/mellivor_kernel/memory/_vector/in_memory.py:36-52 | a batch is accepted exactly when it is non-empty, in a valid namespace, without duplicate ids and all of the store's dimension; a refusal names the fault |
| VectorStoreTheorems.UpsertContents | src/mellivor_kernel/memory/_vector/in_memory.py:54-55 | an accepted batch replaces or adds exactly its own records; other ids and other namespaces are untouched |
| VectorStoreTheorems.DeleteContents | src/mellivor_kernel/memory/_vector/in_memory.py:86-96 | an accepted deletion removes exactly the named records of its namespace |
| VectorStoreTheorems.HistoryKeepsInv | src/mellivor_kernel/memory/_vector/in_memory.py:36-96 | after any sequence of changes keys equal record ids, every vector has the store's dimension, and no namespace is empty |
| VectorStoreTheorems.HistoryContents | src/mellivor_kernel/memory/_vector/in_memory.py:36-96 | the table a history leaves holds, for each id, the last accepted word on it |
| VectorStoreTheorems.ChecksNeverFire | src/mellivor_kernel/memory/_vector/contracts.py:49-54 | a stored record's score is the exact cosine, and the match checks accept it even without the clamp |
| VectorStoreTheorems.MatchesSucceed | src/mellivor_kernel/memory/_vector/in_memory.py:68-75 | building the matches of a namespace never fails |
| VectorStoreTheorems.QueryReturnsBest | src/mellivor_kernel/memory/_vector/in_memory.py:57-77 | a query answers exactly when its arguments are acceptable, with the best limit of its namespace's candidates; a refusal names the fault |
| VectorAnswers.AnswersAreNearest | src/mellivor_kernel/memory/_vector/in_memory.py:68-77 | the answer in scores and ids: as many as there are up to the limit, each a stored record with its metadata and its cosine to the query, scores never increasing, ties by ascending id, and nothing left out that scores better, or as well with a smaller id |
| VectorAnswers.TextBeforeParts | src/mellivor_kernel/memory/_vector/in_memory.py:76 | the order of ids is decided by the first character that differs, or by one being the beginning of the other |
| VectorAnswers.DotAddsProducts | src/mellivor_kernel/memory/_vector/in_memory.py:120-123 | the inner product is the sum of the products of the components |
| VectorAnswers.CosineIsUnique | src/mellivor_kernel/memory/_vector/in_memory.py:117-124 | two vectors have one cosine |
| VectorStoreTheorems.AnswersFollowFromTheNormLaw | src/mellivor_kernel/memory/_vector/in_memory.py:117-124 | the norm's law determines every answer: two functions that obey it give the same answers, errors included |
| VectorStoreTheorems.QueriesSeeOnlyContents | src/mellivor_kernel/memory/_vector/in_memory.py:68-77 | tables with the same contents answer every query alike, whatever the insertion order |
| VectorStoreTheorems.FetchFollowsRequest | src/mellivor_kernel/memory/_vector/in_memory.py:79-84 | fetch returns exactly the named records that are present, in the order asked |
| VectorStoreTheorems.FetchReturnsStored | src/mellivor_kernel/memory/_vector/in_memory.py:79-84 | an accepted fetch returns the records stored under the ids asked for, in that order, and nothing for an id without one |
| VectorStoreTheorems.IdsRefused | src/mellivor_kernel/memory/_vector/in_memory.py:79-114 | fetching and deleting are refused exactly for an invalid namespace, a blank or a repeated id, for the first reason there is |
| VectorStoreTheorems.HistoriesIndistinguishable | src/mellivor_kernel/memory/_vector/in_memory.py:36-96 | two histories with the same last words answer every query and fetch alike |
| InMemoryVectorStores.InMemoryVectorStore.Create | src/mellivor_kernel/memory/_vector/in_memory.py:25-29 | refused exactly for non-positive dimensions; otherwise empty |
| InMemoryVectorStores.InMemoryVectorStore.ValidateBatch | src/mellivor_kernel/memory/_vector/in_memory.py:42-52 | the whole batch is checked before anything is stored, and the first fault reported |
| InMemoryVectorStores.InMemoryVectorStore.Upsert | src/mellivor_kernel/memory/_vector/in_memory.py:36-55 | a refused batch changes nothing; an accepted one leaves the specified table and keeps the invariant |
| InMemoryVectorStores.InMemoryVectorStore.Query | src/mellivor_kernel/memory/_vector/in_memory.py:57-77 | returns the specified answer |
| InMemoryVectorStores.InMemoryVectorStore.Fetch | src/mellivor_kernel/memory/_vector/in_memory.py:79-84 | returns the specified records |
| InMemoryVectorStores.InMemoryVectorStore.Delete | src/mellivor_kernel/memory/_vector/in_memory.py:86-96 | refused or complete, dropping a namespace that becomes empty |
| MemoryContracts.MatchingSelects | src/mellivor_kernel/memory/in_memory.py:60-61 | a search finds exactly the matching entries, in the store's own order |
| MemoryContracts.OverwriteKeepsPlaces | src/mellivor_kernel/memory/in_memory.py:28-34 | overwriting an entry keeps every entry's place in a listing |
| MemoryContracts.NewEntryIsLast | src/mellivor_kernel/memory/in_memory.py:28-34 | a new id is listed last |
| MemoryContracts.ReaddedEntryIsLast | src/mellivor_kernel/memory/in_memory.py:63-73 | deleting an entry and adding it again moves it to the end |
| MemorySearches.SearchFindsExactly | src/mellivor_kernel/memory/in_memory.py:47-90 | after any operations a search returns exactly the entries last added and not deleted since that pass every filter set, by id, tag, part of the content and metadata, each once, in the order their ids were inserted |
| MemorySearches.LookupsFollowTheLastWord | src/mellivor_kernel/memory/in_memory.py:36-73 | a lookup returns the entry last added under the id, and a deletion tells whether there is one |
| MemorySearches.FilterById | src/mellivor_kernel/memory/in_memory.py:82-83 | setting the id filter drops exactly the entries with another id |
| MemorySearches.FilterByTag | src/mellivor_kernel/memory/in_memory.py:84-85 | setting the tag filter drops exactly the entries without the tag |
| MemorySearches.FilterByText | src/mellivor_kernel/memory/in_memory.py:86-87 | setting the text filter drops exactly the entries whose content does not hold the text |
| MemorySearches.FilterByMetadata | src/mellivor_kernel/memory/in_memory.py:88 | one more metadata filter drops exactly the entries with another value under the key, a missing key reading as none |
| InMemoryStores.InMemoryStore.Add | src/mellivor_kernel/memory/in_memory.py:28-34 | the dict after an add is the contract's |
| InMemoryStores.InMemoryStore.Fetch | src/mellivor_kernel/memory/in_memory.py:36-45 | the reply to a lookup is the contract's |
| InMemoryStores.InMemoryStore.Search | src/mellivor_kernel/memory/in_memory.py:47-61 | the matching entries, in insertion order |
| InMemoryStores.InMemoryStore.Delete | src/mellivor_kernel/memory/in_memory.py:63-73 | the dict and the reply are the contract's |
| InMemoryStores.InMemoryStore.Clear | src/mellivor_kernel/memory/in_memory.py:75-77 | leaves nothing |
| SqliteTable.RowRestores | src/mellivor_kernel/memory/sqlite_store.py:228-237 | writing an entry as a row and rebuilding it gives the entry back exactly when its metadata round-trips through JSON |
| SqliteTable.UpdateInPlace | src/mellivor_kernel/memory/sqlite_store.py:27-35 | an upsert of a known id is the dict's overwrite in place |
| SqliteTable.InsertAbove | src/mellivor_kernel/memory/sqlite_store.py:27-35 | a row under a rowid above all in use is the dict's append |
| SqliteTable.DeleteRow | src/mellivor_kernel/memory/sqlite_store.py:41 | deleting a row is the dict's removal |
| SqliteTable.SelectRow | src/mellivor_kernel/memory/sqlite_store.py:37 | selecting by id is the dict's lookup |
| SqliteTable.ViewValues | src/mellivor_kernel/memory/sqlite_store.py:39 | selecting in rowid order lists the dict's values in order |
| SqliteSteps.StepsAgree | src/mellivor_kernel/memory/sqlite_store.py:100-204 | coupled stores give the same reply to any operation on a representable entry and stay coupled |
| SqliteSteps.StoresAgree | src/mellivor_kernel/memory/sqlite_store.py:100-204 | from empty stores, every sequence of add, get, search, delete and clear on representable entries gets the same answers in the same order from both |
| SqliteSearches.TableSearchFindsExactly | src/mellivor_kernel/memory/sqlite_store.py:151-172 | the SQLite store's search returns exactly the stored entries that pass every filter set, in insertion order, after any operations on representable entries |
| SqliteSearches.TableLookupFollowsTheLastWord | src/mellivor_kernel/memory/sqlite_store.py:133-149 | its lookup returns the entry last added under the id |
| SqliteSteps.AgreementNeedsRoundTrip | src/mellivor_kernel/memory/sqlite_store.py:111-117 | adding an entry and reading it back agrees on both stores exactly when its metadata round-trips |
| SqliteSteps.TupleComesBackAsList | src/mellivor_kernel/memory/sqlite_store.py:111-117 | an entry the stores disagree on: metadata holding a tuple is stored without an error and comes back with a list |
| SqliteSteps.RowidsFollowInsertion | src/mellivor_kernel/memory/sqlite_store.py:39 | along the dict's insertion order the rowids strictly increase |
| SqliteMemoryStores.Connection.Upsert | src/mellivor_kernel/memory/sqlite_store.py:27-35 | in place on a conflict, else under the largest rowid in use plus one |
| SqliteMemoryStores.Connection.SelectOne | src/mellivor_kernel/memory/sqlite_store.py:37 | the row with the id, or nothing when there is none |
| SqliteMemoryStores.Connection.SelectAll | src/mellivor_kernel/memory/sqlite_store.py:39 | all rows in ascending rowid order |
| SqliteMemoryStores.Connection.DeleteOne | src/mellivor_kernel/memory/sqlite_store.py:41 | removes the row with the id and counts it |
| SqliteMemoryStores.Connection.DeleteAll | src/mellivor_kernel/memory/sqlite_store.py:43 | leaves no row |
| SqliteMemoryStores.SQLiteMemoryStore.Add | src/mellivor_kernel/memory/sqlite_store.py:100-131 | fails without writing when the metadata cannot be dumped, else upserts the entry's row |
| SqliteMemoryStores.SQLiteMemoryStore.Fetch | src/mellivor_kernel/memory/sqlite_store.py:133-149 | answers as specified; the entry constructor never refuses a stored row |
| SqliteMemoryStores.SQLiteMemoryStore.Search | src/mellivor_kernel/memory/sqlite_store.py:151-172 | the matching rebuilt entries in rowid order |
| SqliteMemoryStores.SQLiteMemoryStore.Delete | src/mellivor_kernel/memory/sqlite_store.py:174-192 | true exactly when a row was removed |
| SqliteMemoryStores.SQLiteMemoryStore.Clear | src/mellivor_kernel/memory/sqlite_store.py:194-204 | empties the table, which stays usable |
| PluginLifecycles.ActReachesExactlyLegal | src/mellivor_kernel/plugins/lifecycle.py:57-138 | a lifecycle call reaches the plugin exactly when the plugin's sequence of calls stays legal with it |
| PluginLifecycles.ActsKeepInv | src/mellivor_kernel/plugins/lifecycle.py:57-138 | over every sequence of lifecycle calls and failures the plugin sees a legal log and the state is the one its log implies |
| PluginLifecycles.LegalLogsAreReached | src/mellivor_kernel/plugins/lifecycle.py:57-138 | every legal log is produced by some sequence of lifecycle calls |
| PluginLifecycles.LegalNeighbours | src/mellivor_kernel/plugins/lifecycle.py:57-118 | initialize comes first, a start right after a successful initialize or stop, a stop right after a successful start, and nothing after a successful dispose |
| PluginLifecycles.OnlyDisposeAfterFailure | src/mellivor_kernel/plugins/lifecycle.py:128-138 | after a failed callback the plugin receives nothing but dispose |
| PluginLifecycles.StartsAlternateWithStops | src/mellivor_kernel/plugins/lifecycle.py:72-95 | between two starts there is a stop, right after the first |
| PluginLifecycles.PluginLifecycle.Initialize | src/mellivor_kernel/plugins/lifecycle.py:57-70 | the object's initialize is the specified transition |
| PluginLifecycles.PluginLifecycle.Start | src/mellivor_kernel/plugins/lifecycle.py:72-84 | the object's start is the specified transition |
| PluginLifecycles.PluginLifecycle.Stop | src/mellivor_kernel/plugins/lifecycle.py:86-95 | the object's stop is the specified transition |
| PluginLifecycles.PluginLifecycle.Dispose | src/mellivor_kernel/plugins/lifecycle.py:97-118 | the object's dispose is the specified transition, without effect once disposed |
| PluginLifecycles.RefusalIsExact | src/mellivor_kernel/plugins/lifecycle.py:57-126 | in terms of the calls the plugin has received, exactly when each lifecycle call is refused, and that a refused call changes nothing |
| PluginLifecycles.StateTells | src/mellivor_kernel/plugins/lifecycle.py:57-138 | the state says which callback the plugin received last, and that it succeeded, or that the last one failed, or that there was none |
| PluginLifecycles.PluginLifecycle.Run | src/mellivor_kernel/plugins/lifecycle.py:128-138 | makes the call once and moves to the next state, or to failed if it raised |
| PluginRegistries.PluginRegistry.Register | src/mellivor_kernel/plugins/registry.py:19-32 | a taken id is refused without effect; a new plugin is enumerated last |
| PluginRegistries.PluginRegistry.Unregister | src/mellivor_kernel/plugins/registry.py:34-47 | removes exactly the named plugin, or reports that it is missing |
| PluginRegistries.PluginRegistry.Lookup | src/mellivor_kernel/plugins/registry.py:49-65 | the plugin registered under the id, or the error exactly when there is none |
| PluginRegistries.PluginRegistry.Exists | src/mellivor_kernel/plugins/registry.py:67-77 | true exactly for registered ids |
| PluginFleets.DrivesPrefix | src/mellivor_kernel/ai_engine/engine.py:185-213 | a fleet command returns normally exactly when it can succeed on every plugin, and then all are at its goal; else exactly the prefix before the first offender is, the offender was driven once, and its error is reported |
| PluginFleets.CommandMakes | src/mellivor_kernel/ai_engine/engine.py:185-213 | which callbacks a fleet command makes on a plugin, in terms of those it received before, and which error follows: a new plugin is initialized and started, one just initialized or stopped is started, only a started one is stopped, any other than a started one is disposed, once |
| PluginFleets.RestUntouched | src/mellivor_kernel/ai_engine/engine.py:185-213 | nothing behind the first offender and no unregistered plugin's lifecycle is touched |
| PluginFleets.SomethingIsReached | src/mellivor_kernel/ai_engine/engine.py:199-203 | every fleet has a first offender or none |
| EngineHistories.HistoryKeepsInv | src/mellivor_kernel/ai_engine/engine.py:185-221 | in every history of registrations, unregistrations and fleet commands each plugin's calls through its lifecycle are legal |
| EngineHistories.AgreementWithoutUnregister | src/mellivor_kernel/ai_engine/engine.py:215-221 | while nothing is unregistered every cached lifecycle belongs to the registered plugin |
| EngineHistories.ReachesRegisteredPlugin | src/mellivor_kernel/ai_engine/engine.py:185-221 | a command that returns normally leaves every registered id at its goal, and reaches the registered plugin itself exactly when no lifecycle of another plugin is cached there |
| EngineHistories.DriveCaches | src/mellivor_kernel/ai_engine/engine.py:215-221 | a command caches a lifecycle for exactly the ids it comes to, made for the plugin registered there; a cached one keeps its plugin |
| EngineHistories.CacheRemembersFirst | src/mellivor_kernel/ai_engine/engine.py:215-221 | over every history the cache holds, for each id, the plugin a command first found there |
| EngineHistories.CommandReachesRegisteredPlugins | src/mellivor_kernel/ai_engine/engine.py:185-221 | in every history a command that returns normally has the registered plugin at its goal exactly when no command came to its id before or the first that did found this plugin; without unregistering, always |
| EngineHistories.ReplacementIsNotStarted | src/mellivor_kernel/ai_engine/engine.py:215-221 | after a plugin is replaced under its id, starting the fleet returns normally but runs the old plugin |
| AIEngines.AIEngine.LifecycleFor | src/mellivor_kernel/ai_engine/engine.py:215-221 | the cached lifecycle object, or a fresh one for the registered plugin |
| AIEngines.AIEngine.StartPlugins | src/mellivor_kernel/ai_engine/engine.py:185-203 | the loop over the registry leaves the fleet and the error of the specified command |
| AIEngines.AIEngine.StopPlugins | src/mellivor_kernel/ai_engine/engine.py:205-208 | the same for stopping |
| AIEngines.AIEngine.DisposePlugins | src/mellivor_kernel/ai_engine/engine.py:210-213 | the same for disposing |
| Embeddings.EverySlotIsNamed | src/mellivor_kernel/providers/_embeddings/openai_compatible.py:151-175 | pigeonhole: n distinct indices among n slots leave none empty |
| Embeddings.PlacementIsUnique | src/mellivor_kernel/providers/_embeddings/openai_compatible.py:151-176 | a complete response determines its vectors |
| Embeddings.ArrangementIsIrrelevant | src/mellivor_kernel/providers/_embeddings/openai_compatible.py:153-172 | any permutation of the items yields the same vectors |
| Embeddings.AcceptsExactlyComplete | src/mellivor_kernel/providers/_embeddings/openai_compatible.py:153-172 | the loop finds no fault exactly in complete responses |
| Embeddings.FaultsAreLocal | src/mellivor_kernel/providers/_embeddings/openai_compatible.py:174-179 | no fault of the loop is the omitted-index or batch-size error |
| Embeddings.CheckItem | src/mellivor_kernel/providers/_embeddings/openai_compatible.py:154-171 | one pass reports its item's first fault, or the vector for a free slot |
| Embeddings.Collect | src/mellivor_kernel/providers/_embeddings/openai_compatible.py:174-176 | after a faultless loop every slot is filled, so the omitted-index error is unreachable |
| Embeddings.Reassemble | src/mellivor_kernel/providers/_embeddings/openai_compatible.py:151-176 | the in-place loop ends with slot i holding the vector sent with index i, or at the first faulty item |
| Embeddings.NormalizeResponse | src/mellivor_kernel/providers/_embeddings/openai_compatible.py:128-180 | a result comes back exactly for the configured model's complete response, and its k-th vector has the components of the item sent with index k; otherwise the error names a fault of the response |
| Embeddings.Post | src/mellivor_kernel/providers/_embeddings/openai_compatible.py:93-108 | at least one and at most max_retries + 1 attempts, only timeouts and transport failures retried, the last attempt reported, the final assertion unreachable |
| Dispatch.DispatchReturns | src/mellivor_kernel/execution/dispatch.py:87-167 | a dispatch returns a well-formed result exactly when validate raises only its declared error and no exception on the way is blank |
| Dispatch.BodyRunsWhenCovered | src/mellivor_kernel/tools/pipeline.py:48-92 | a tool body runs exactly when the tool is registered, the permissions handed over are well formed and cover the declared ones, and the payload is valid |
| Dispatch.DispatchTells | src/mellivor_kernel/execution/dispatch.py:87-167 | what a dispatch gives back, case by case: the provider's response as payload, the tool's own result, or a failure with the exception's text and the stage it came from |
| Permissions.PermissionFormat | src/mellivor_kernel/tools/permissions.py:19 | a permission is well formed exactly when it is two or more lower-case segments joined by dots, with or without one newline at the end |
| Authorization.GrantedMeansCovered | src/mellivor_kernel/authorization/engine.py:70-134 | granted exactly when every claim is well formed and a registered tool's permissions are covered, and what is granted is what was claimed; a denial says which is wanting |
| Authorization.AuthorizationEngine.CheckRequest | src/mellivor_kernel/authorization/engine.py:95-173 | each check publishes one event and records one audit entry, both saying what was decided |
| ExecutionEngines.ReturnsExactlyWhenEveryoneSpeaks | src/mellivor_kernel/execution/engine.py:134-225 | one started event; a call returns exactly when every exception text and denial reason met can become a result, and then one terminal event follows that agrees with it; otherwise it raises without one |
| ExecutionEngines.CallTells | src/mellivor_kernel/execution/engine.py:134-225 | whose outcome a call returns: a dispatch with no permissions without an authorizer, with the claims under an allowing one, a failure with the reason of a denial; and the terminal event repeats the result's error and stage |
| ExecutionEngines.SilentExceptionLosesTerminalEvent | src/mellivor_kernel/tools/pipeline.py:76-89 | a body that raises with an empty text has run, yet the call raises and no terminal event is published |
| ExecutionEngines.BodyNeedsPermissions | src/mellivor_kernel/execution/engine.py:151-170 | a tool body runs at most once, exactly under an allowing authorizer with its permissions covered, or, without an authorizer, if it needs none |
| ExecutionEngines.GrantImpliesLaterChecksPass | src/mellivor_kernel/execution/engine.py:152-170 | on the same registry a grant means that neither the dispatcher nor the pipeline refuses for want of permissions |
| ExecutionEngines.KernelDenialIsOrderly | src/mellivor_kernel/execution/engine.py:156-165 | a denial by the kernel's authorizer returns a failure with its reason at the authorization stage and runs nothing |
| ExecutionEngines.ExecutionEngine.Run | src/mellivor_kernel/execution/engine.py:108-225 | the object publishes and runs exactly what the specification reports |

## Left out

- Logging, memory recording, observability events and message wording: nothing depends on them beyond non-blankness; messages are short constants.
- Event handlers, hooks, plugin callbacks and resolvers that reenter the kernel, and handlers or hooks that raise.
- Events without a bus: the models always publish, so a missing bus only loses events.
- A provider or tool call inside the tool loop that raises out of the execution engine: the loop model takes a result for each; ExecutionEngines says when there is one.
- ParallelGroup.Apply: a worker between taking a future from the queue and starting it is counted, not named; the pool always has all its workers, though Python creates one per submission only while none is idle.
- The tool loop's system prompt, token limit, provider name and caller's permissions, which are the same in every call of a run and handed on unchanged; a tool spec's schema is only known to be an object.
- Authorization.Check: a denial says that permissions are missing or malformed, not which, because message wording is left out.
- Floating-point rounding, overflow, infinities and NaN in vectors and embeddings: vectors are exact reals and `math.hypot` is the exact norm.
- JSON text, SQLite internals (journal, locking, files, reopening, the end of the rowid range) and wall clocks.
- SqliteSteps.StoresAgree: assumes the round-trip law for tags and times, and for the metadata it is given; sqlite errors never occur in the model.
- Values that are not of the declared Python type are one alternative per check (a component that is not a number, a block that is not a mapping); `str()` of non-string fields is not modelled.
- Kernel.Blank: knows ASCII white space only.
- The adapter's HTTP client, status-code branches and URL checks; the vendors' SDK clients, response parsing and health checks.
- PluginLifecycles.PluginLifecycle.Run: a plugin is a value with an identity; its callbacks do nothing but return or raise, and a plugin is driven through one lifecycle, as the engine does.
- Plugin discovery, manifests, registry ownership by weak reference, bootstrap, builders, configuration, secrets, agents and the service container.
- Dictionaries handed to callers: aliasing and later mutation by the caller.
