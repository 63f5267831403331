# CAESAR: verified model

CAESAR is a self-hosted assistant: a language-model "brain" that controls a home through Home Assistant,
remembers facts about its operator, and reacts to schedules, device events and webhooks. This project models
its in-process state machines in Dafny and proves what they keep over whole runs. Asynchronous code is
modelled as atomic steps between `await`s. Everything outside the process (the language model, Home Assistant,
the message bus, the SQL engine, the cron library, the clock, square roots, JSON text) is a parameter, and may
fail where the original may fail.

`dafny verify dfyconfig.toml` checks everything.

## The parts

**Memory.** `AuditClamp` cuts overlong strings in audit payloads. `AuditLog` is the append-only log with
growing ids. `FactsStore` is the keyed fact table with its confidence ratchet and one audit row per change;
its main result is that the audit rows alone rebuild the table after every call exactly when the clamp leaves
every key and value written as it is. `MemoryExtract` is the cursor-driven batch extractor. Its batches may
abort at any upsert and are retried, and every attempt is told its own answers by the model, which may fail.
Each chat row the cursor has passed was committed by exactly one attempt and contributes what that attempt was
told, nothing if its call failed. In `MemoryConverge`, `ConvergesIff` says when a commit leaves the table as
one pass over the committed answers would, and `LeftoverKeys` which keys of aborted attempts outlive it. When
retries begin as the aborted attempts did, at-least-once work ends in the exactly-once state. The core is
`ReplayAbsorbed`: replaying any prefix of the writes first changes nothing the whole sequence does. `Semantic`
is the embedding indexer: a row without text is fetched again by every call, so a row gets a chunk exactly
when fewer than `batchSize` such rows come before it. `Cosine` is the similarity loop and the ranking over
real numbers, with the inequality of Cauchy and Schwarz.

**Proactive drivers.** `Scheduler` is the min-next-fire loop. For each trigger every slot is a fire, is
skipped at a fire or is still ahead. `HaDriver` is the sequential cooldown and suppression machine: over runs
of events, with audit writes and brain runs that may raise, a trigger's output is that of a cut of its turns
into windows, every match is accounted for, and the books balance without losses exactly when no flush of a
pending record failed and no earlier trigger raised on an event this one matched. `Webhook` is the concurrent
one: request coroutines and fire tasks interleaved at every `await`, with program counters. Counts are
conserved in every interleaving. The cooldown is a different matter: the check is in the route, but the mark
is set inside the spawned task after an `await`, so two requests in flight may both pass. The model proves
that fires are one cooldown apart when no two requests of a trigger are ever in flight together, and that from
any state in which two are, the run can go on to fire the trigger twice at the same instant.

**Brain and wire.** `Brain` is the two-node loop with its iteration cap and policy-gated effects. `Story`
tells a run use by use: every effect belongs to a tool use the model asked for, and every result says what
came of it. `Wire` translates a conversation to three provider formats. A translation is well formed exactly
when the conversation is paired, and every list the brain asks with is paired if the initial one is.

**Fast forms against simple ones.** `RateLimit` (a lazily pruned queue against the full history), `Registry`
(iterators rebuilt from a dictionary against a scan), `Allowlist` (rules grouped by id against a linear scan).
`Brain.OnlyListedEffects` joins the last one to the brain: under the allow-list, whatever the model asks for,
Home Assistant is called only for calls that some rule of the file permits.

**Delivery.** `HaSubscription` (the reconnect loop) and `AuditBus` (the lossy fan-out queues).

## Where code and documentation differ

* `docs/adr/0033-personal-facts.md` (lines 103-104) says a failed extraction does not advance the cursor and
  is retried. The code returns no candidates when the model fails and goes on, so the batch commits past the
  row: `MemoryExtract.FailedCallIsLost` is the shortest such run, and `MemoryExtract.RetriedIff` says that the
  promise holds of a run exactly when no call failed in a committing attempt.
* `caesar/memory/extract.py` (line 247) calls a batch idempotent for a fixed cursor and rows. It is when a
  retry is told what the aborted attempt was told; otherwise facts of the aborted attempt can stay:
  `MemoryConverge.LeftoverRun`.
* The cooldown between webhook fires is documented per trigger; under concurrent requests it does not hold,
  see `Webhook.TwoInFlightBreakCooldown`.
* `caesar/proactive/ha_driver.py` (lines 17-22) promises a row for the suppressed events of each cooldown
  window. A flush that fails has already dropped the pending record: `HaDriver.FailedFlushLoses`, and
  `HaDriver.AccountedIff` for the exact condition.
* The allow-list's union of rules holds for services in any order. For tools, a rule whose `domain_allowlist`
  is neither empty nor a container raises while matching. `Allowlist.ToolOrderMatters` has two rules that
  allow a call in one order and raise in the other; `Allowlist.ToolOrderIrrelevantIff` says that this takes a
  rule that raises and one that matches.
* `caesar/legion/registry.py` (line 9) calls round-robin fair. It is while each worker names a capability
  once. A registration may name it twice, and then two picks in a row can both go to that worker:
  `Registry.UnfairPicks`, with the exact condition in `Registry.AlwaysFairIff`.

## Assumptions

Audit ids grow. Only `MemoryConverge.ExactlyOnce` and `MemoryConverge.NextCommitIsExact` take one fixed
extraction for all attempts. Clocks do not go back where a statement says so. Trigger ids are distinct. An
extraction run holds no operator edits of the facts, and no chat is logged between two upserts of one batch.

## Model

| member | source | states |
|---|---|---|
| `AuditClamp.ClampValue` | caesar/db/audit_clamp.py:28-51 | the recursive walk returns the clamped tree and sets the shared flag exactly when some string anywhere is overlong |
| `AuditClamp.ClampPayload` | caesar/db/audit_clamp.py:54-65 | a limit of zero or less passes the payload through; otherwise keys, shape and non-strings are kept, every string is the right cut of its original, and the flag is true iff something was overlong |
| `AuditClamp.CutLength` | caesar/db/audit_clamp.py:25-37 | a stored string is within the limit, or is exactly a marker of 27 characters plus the decimal digits of the original length; it exceeds the limit iff the marker does not fit |
| `AuditClamp.DecimalRoundTrip` | caesar/db/audit_clamp.py:25-37 | the length written in the marker can be read back and has no leading zero |
| `AuditClamp.MarkerReads` | caesar/db/audit_clamp.py:25-37 | the marker is the documented text around the decimal numeral of the original length, which can be read back out of it |
| `AuditClamp.SecondPass` | caesar/db/audit_clamp.py:28-65 | a second clamp is the identity with a false flag exactly when every needed marker fits the limit |
| `AuditLog.AuditLogger.Record` | caesar/db/audit.py:49-82 | a successful insert appends one clamped event under the next id, a failed one stores nothing |
| `AuditLog.AppendedExtends` | caesar/db/audit.py:49-82 | recording only extends the log, keeps ids growing and stores exactly the clamped events |
| `AuditLog.ClipIsClamp` | caesar/db/audit.py:49-82 | clamping a typed event is the payload clamp seen through its dictionary |
| `AuditLog.ClipKeepsType` | caesar/db/audit.py:49-70 | the clamp never changes the event type of a row, and with a limit of zero or less nothing at all |
| `FactsStore.FactsStore.Get` | caesar/memory/facts.py:68-77 | the row with that key, if there is one |
| `FactsStore.FactsStore.Upsert` | caesar/memory/facts.py:94-210 | insert, confirm with the higher confidence, or overwrite; one audit row; which parts happened for each place it can raise; other rows and their history untouched |
| `FactsStore.FactsStore.Delete` | caesar/memory/facts.py:212-235 | removes exactly that key and records it, or reports that it was absent |
| `FactsStore.FactsStore.UserEdit` | caesar/memory/facts.py:237-260 | an upsert without a source row, followed by a second, overlay audit row |
| `FactsStore.FactsStore.UserDelete` | caesar/memory/facts.py:262-279 | removes exactly that key under the operator's audit event |
| `FactsStore.PutTells` | caesar/memory/facts.py:127-202 | the row of an upsert, type and stored dictionary: a new fact; the same value with the confidence now stored; or the value that was stored and the new one |
| `FactsStore.OpTells` | caesar/memory/facts.py:226-279 | the rows of the other calls: a deletion logs the value that was stored, an operator's edit the upsert's row and then its own |
| `FactsStore.StepDisagrees` | caesar/memory/facts.py:94-279 | one write whose key or value the clamp cuts makes the log disagree with the table |
| `FactsStore.LogRebuildsTable` | caesar/memory/facts.py:94-279 | folding the audit rows rebuilds key, value and confidence after every completed call, exactly when the clamp leaves all keys and values written as they are |
| `FactsStore.FitsIff` | caesar/db/audit_clamp.py:28-37 | that is so for a string exactly when clamping is off, the string is short enough, or it is the very marker it would be cut to |
| `MemoryExtract.ReplayAbsorbed` | caesar/memory/facts.py:109-210 | applying any prefix of the upserts before the whole sequence changes nothing |
| `MemoryExtract.FinalBelief` | caesar/memory/facts.py:109-210 | after many upserts a key holds the last value with its source, and the highest confidence seen since that value last came in |
| `MemoryExtract.BatchIsBetween` | caesar/memory/extract.py:217-226 | a fetched batch is exactly the chat rows between the cursor and its last row |
| `MemoryExtract.BatchIsDue` | caesar/memory/extract.py:217-226 | a batch holds the first `batchSize` chat rows above the cursor: one left out comes after all that are in, and then the batch is full |
| `MemoryExtract.TallyIsTotal` | caesar/memory/extract.py:258-292 | every upsert of a batch is counted once, as added, updated or confirmed |
| `MemoryConverge.TallyTells` | caesar/memory/extract.py:272-292 | facts added are new keys, facts updated are values replaced, the other upserts are confirmations |
| `MemoryExtract.MemoryExtractor.ExtractOnce` | caesar/memory/extract.py:231-292 | a returning call has stored, under each key the answers name, the last answer's value with its row as source and the highest confidence of that value's closing run, has touched no other key and moved the cursor to its last row; a failed model call counts as an empty answer; a raising call (cursor read, fetch, upsert or cursor write) has applied a prefix and left the cursor |
| `MemoryExtract.BatchStores` | caesar/memory/extract.py:258-271 | what the upserts of a batch leave under a key, read off the model's answers by row and place in the answer |
| `MemoryExtract.RunCovers` | caesar/memory/extract.py:198-226 | in every run the committed batches are exactly the chat rows the cursor has passed, each once and in id order |
| `MemoryExtract.PassedRow` | caesar/memory/extract.py:231-292 | a chat row the cursor has passed was committed by exactly one attempt; it contributes nothing if its model call failed there, and otherwise exactly what was answered there |
| `MemoryExtract.FailedCallIsLost` | caesar/memory/extract.py:231-243 | a run in which a call fails and the batch commits: whatever happens afterwards the row is never fetched again and gives nothing |
| `MemoryExtract.RetriedIff` | docs/adr/0033-personal-facts.md:103-104 | failed rows are still due after the step, as documented, exactly when no call failed in a committing attempt |
| `MemoryConverge.ConvergesIff` | caesar/memory/extract.py:246-292 | at any commit, whatever the attempts were told, the table is one pass over the committed answers exactly when for each key the batch writes two values, or one value that neither table or both alike hold at a higher confidence, or nothing and no abort left a difference |
| `MemoryConverge.EffectMeaning` | caesar/memory/facts.py:109-210 | which of these three cases a key is in can be read off the batch: no write, one value, at least two values |
| `MemoryConverge.LeftoverKeys` | caesar/memory/extract.py:246-292 | keys no committed answer accounts for are exactly those that an aborted attempt wrote, no committing one did, and nobody had before |
| `MemoryConverge.LeftoverRun` | caesar/memory/extract.py:246-292 | a run with such a key: an attempt is cut short before its cursor write and its retry is told nothing |
| `MemoryConverge.AlikeConverges` | caesar/memory/extract.py:246-292 | if each committing attempt begins with what the aborted ones before it wrote, the table is one pass over the committed answers, and the audit rows rebuild it if nothing written is cut in the log |
| `MemoryConverge.LogOffStale` | caesar/memory/facts.py:94-210 | in every run the audit rows rebuild each key except those whose last write reached the table but not the log |
| `MemoryConverge.ExactlyOnce` | caesar/memory/extract.py:217-292 | with one extraction for all attempts, after any mix of appends, commits and aborts that has committed its last batch, the facts are those of one pass over the chat rows up to the cursor; if nothing extracted is cut in the log, the audit rows rebuild them |
| `MemoryConverge.NextCommitIsExact` | caesar/memory/extract.py:246-292 | with one extraction for all attempts, even after aborted batches the next commit lands on the exactly-once state |
| `MemoryExtract.BatchesDisjoint` | caesar/memory/extract.py:198-226 | rows of a committed batch have smaller ids than those of every later batch, committed or not |
| `Semantic.SemanticIndexer.IndexPending` | caesar/memory/semantic.py:71-114 | one batch: stores a chunk for each fetched row with text, or nothing at all when the embedder fails or answers with the wrong number of vectors |
| `Semantic.AlwaysFaithful` | caesar/memory/semantic.py:71-114 | in every run of appends and calls no row has two chunks and each chunk holds the extracted text of its own row |
| `Semantic.GivesIff` | caesar/memory/semantic.py:47-54 | the text of a row: of a chat its reply, if that is a string that is not all white space; of another type its payload as text |
| `Semantic.ChunksTell` | caesar/memory/semantic.py:71-114 | in every run each chunk holds the text its own row gives, and the row is of a configured type |
| `Semantic.EmbeddingsTell` | caesar/memory/semantic.py:98-114 | and if the embedder gives each text its own vector, each chunk has the vector of its own text |
| `Semantic.CallTakes` | caesar/memory/semantic.py:80-99 | a call takes up exactly the rows with text that stand among the first `batchSize` pending ones |
| `Semantic.StallsIff` | caesar/memory/semantic.py:80-99 | a call finds nothing exactly when every row that waits has at least `batchSize` rows without text before it |
| `Semantic.NeverTaken` | caesar/memory/semantic.py:80-99 | a row behind `batchSize` rows without text never gets a chunk, in any run |
| `Semantic.IndexedIff` | caesar/memory/semantic.py:71-114 | after enough answered calls a row has a chunk exactly when it has text and fewer than `batchSize` rows without text come before it |
| `Semantic.Drains` | caesar/memory/semantic.py:71-114 | with fewer than `batchSize` rows without text, every row with text ends up with exactly one chunk, holding that text |
| `Cosine.CosineOf` | caesar/memory/semantic.py:57-68 | the one-pass loop computes dot product over the product of the norms, 0 for a zero denominator, an error for different lengths |
| `Cosine.CauchySchwarz` | caesar/memory/semantic.py:57-68 | for the accumulated sums, dot² is at most the product of the squared norms |
| `Cosine.SimilarityBounded` | caesar/memory/semantic.py:57-68 | similarity lies in [-1, 1] and distance in [0, 2] for vectors of any equal length |
| `Cosine.SelfSimilar` | caesar/memory/semantic.py:57-68 | a vector is at distance 0 from itself, unless its norm is 0 |
| `Cosine.DotGrows` | caesar/memory/semantic.py:60-66 | the loop's sum starts at 0 and each pair of coordinates adds its product |
| `Cosine.SimilarityMeans` | caesar/memory/semantic.py:57-68 | the similarity times the two norms is the sum of products, and it is 0 when a norm is |
| `Cosine.RankIsCount` | caesar/memory/semantic.py:156-156 | the sort puts each row at the number of rows that beat it, ties decided by fetch order |
| `Cosine.CosineTopK` | caesar/memory/semantic.py:117-157 | scores every row, sorts, slices; an error as soon as one vector has another length |
| `Cosine.TopIsBest` | caesar/memory/semantic.py:141-157 | a row is returned exactly when fewer rows beat it than are kept, and then at that place |
| `Cosine.TopRow` | caesar/memory/semantic.py:117-155 | how many rows are kept for each limit, and for each row with few enough others ahead (more similar, or as similar and fetched earlier) its place, id, text and distance in the result |
| `Cosine.TopSorted` | caesar/memory/semantic.py:141-157 | distances never fall along the result |
| `Webhook.WebhookDispatcher.ReceiveBody` | caesar/praetor/routes/webhook.py:71-93 | the route's decision after the body is read, and its effect on the pending counts |
| `Webhook.WebhookDispatcher.BeginFire` | caesar/proactive/webhook_dispatcher.py:185-194 | a fire takes the pending record; with nothing to flush it marks the trigger at once |
| `Webhook.WebhookDispatcher.AfterFlush` | caesar/proactive/webhook_dispatcher.py:193-214 | the trigger is marked as fired only after the row was written |
| `Webhook.EveryPostRouted` | caesar/praetor/routes/webhook.py:51-93 | in every interleaving each authenticated, in-size request to an armed trigger becomes one spawned fire or one counted suppression, and no other request does |
| `Webhook.SuppressedIff` | caesar/proactive/webhook_dispatcher.py:100-109 | with a clock that does not go back an accepted request is answered 429 exactly when its trigger has a cooldown and a fire of it is younger than that; otherwise it is admitted |
| `Webhook.RefusalsRecorded` | caesar/praetor/routes/webhook.py:59-77 | each 401 and each 404 of a wired route has exactly one row |
| `Webhook.RunConserves` | caesar/proactive/webhook_dispatcher.py:174-254 | in every interleaving 429s = counts in rows + counts popped and not yet recorded + pending + counts lost to a failed write, and 202s = tasks |
| `Webhook.PendingTells` | caesar/proactive/webhook_dispatcher.py:174-183 | a pending record counts the 429s since the one before it was taken out, and holds the times of the first and the last of them |
| `Webhook.RowsWerePending` | caesar/proactive/webhook_dispatcher.py:242-254 | suppression rows, written or lost, are pending records as they were when they were taken out |
| `Webhook.StopDrains` | caesar/proactive/webhook_dispatcher.py:229-240 | with no further requests nothing is pending once the flush loop of `stop` is over |
| `Webhook.StopAccounts` | caesar/proactive/webhook_dispatcher.py:229-240 | when `stop` has also joined the tasks, every 429 is in a row or was lost to a failed write |
| `Webhook.CooldownHolds` | caesar/proactive/webhook_dispatcher.py:100-109 | fires of a trigger are at least one cooldown apart as long as no two of its requests are in flight together |
| `Webhook.TwoInFlightBreakCooldown` | caesar/proactive/webhook_dispatcher.py:185-227 | from any state with two requests in flight the run may fire the trigger twice at one instant |
| `Webhook.TwoPostsFireTogether` | caesar/praetor/routes/webhook.py:79-93 | the shortest such run, from the initial state |
| `HaDriver.HAEventDriver.FlushSuppression` | caesar/proactive/ha_driver.py:181-193 | the pending record becomes a row; it is taken out first, so a failed write loses it |
| `HaDriver.HAEventDriver.OnEvent` | caesar/proactive/ha_driver.py:137-158 | one event: every matching trigger has its turn up to the first one that raises, and the later ones are untouched |
| `HaDriver.HAEventDriver.Stop` | caesar/proactive/ha_driver.py:131-135 | pending records become rows one by one; a failed write loses its record and leaves the rest pending |
| `HaDriver.TurnIff` | caesar/proactive/ha_driver.py:137-158 | a match gets its turn exactly when every earlier trigger does not match, is inside its cooldown, or raises neither in its run nor in the flush of a pending record |
| `HaDriver.RunIsTurns` | caesar/proactive/ha_driver.py:137-193 | after any run of events with all triggers and faults, a trigger's state and output depend on its own turns alone |
| `HaDriver.OutputIsWindows` | caesar/proactive/ha_driver.py:137-197 | after any such run a trigger's output and pending record are those of windows over its turns: one fire each, at most one row between two fires, with the count and first and last time of what the window swallowed; a failed flush empties the open window, and without one the windows are the greedy cut of the turn times |
| `HaDriver.PendingTells` | caesar/proactive/ha_driver.py:172-179 | the pending record counts what was swallowed since the last fire or failed flush, with the first and the last time |
| `HaDriver.RowsTell` | caesar/proactive/ha_driver.py:181-193 | every row sums up in that way what had been swallowed when it was flushed |
| `HaDriver.WindowsPartition` | caesar/proactive/ha_driver.py:137-197 | the windows lose and reorder no match |
| `HaDriver.WindowsCut` | caesar/proactive/ha_driver.py:160-179 | a window swallows only matches inside its fire's cooldown, and the next one opens with a match that is not |
| `HaDriver.WindowInTime` | caesar/proactive/ha_driver.py:160-179 | the swallowed matches lie in [fire, fire + cooldown) |
| `HaDriver.FiresApart` | caesar/proactive/ha_driver.py:160-169 | fires of a trigger are at least one cooldown apart in the cut |
| `HaDriver.RunSpaced` | caesar/proactive/ha_driver.py:137-179 | in every run, faults included and whatever the clock does, fires of a trigger are at least one cooldown apart |
| `HaDriver.MatchesAccounted` | caesar/proactive/ha_driver.py:137-193 | in every run matches = fires + counts in rows + pending + counts lost with a failed flush + turns of those flushes + matches taken away by an earlier trigger's exception |
| `HaDriver.AccountedIff` | caesar/proactive/ha_driver.py:137-193 | matches = fires + counts in rows + pending exactly when no flush of a pending record failed and no earlier trigger raised on an event this one matched |
| `HaDriver.FailedFlushLoses` | caesar/proactive/ha_driver.py:181-193 | three matches, one fire, no row and nothing pending |
| `HaDriver.ShutdownAccounted` | caesar/proactive/ha_driver.py:131-135 | after `stop` nothing is pending and fires and rows account for every match exactly when the run was undisturbed and the shutdown flush wrote this trigger's record if it had one |
| `Scheduler.Scheduler.Tick` | caesar/proactive/scheduler.py:120-136 | fires what is due, earliest first, ends with every next fire after its last clock reading, and terminates when the clock is bounded |
| `Scheduler.Scheduler.Delay` | caesar/proactive/scheduler.py:156-176 | the loop sleeps at most a minute and never past a due time |
| `Scheduler.ScheduledInOrder` | caesar/proactive/scheduler.py:120-136 | scheduled times never fall over the whole run and strictly rise for each trigger |
| `Scheduler.SkippedSlots` | caesar/proactive/scheduler.py:50-62 | a slot is skipped only if it lies between a fire's slot and the clock reading after that fire |
| `Scheduler.SlotsConserved` | caesar/proactive/scheduler.py:120-136 | each slot of a trigger up to any clock bound is one of its fires, passed while one of its fires was late or running, or is still ahead |
| `Scheduler.FiresBounded` | caesar/proactive/scheduler.py:120-136 | all triggers together: fires and slots still ahead are at most the slots the run began with, which is why a tick ends |
| `Scheduler.FrozenClock` | caesar/proactive/scheduler.py:120-136 | with the clock standing still each due trigger fires exactly once and nothing else does |
| `Wire.MessagesToOpenAI` | caesar/llm/openai.py:60-118 | the loop yields the joined system text first and then the entries of each turn in order |
| `Wire.MessagesToOllama` | caesar/llm/ollama.py:52-103 | the same for the other dialect |
| `Wire.ScanIsSettles` | caesar/llm/openai.py:60-118 | a left-to-right check of pending ids accepts exactly the entry lists in which every call is answered right behind its entry |
| `Wire.WireIffPaired` | caesar/llm/openai.py:60-118 | the translation is well formed exactly when the conversation pairs its tool uses with results |
| `Wire.SystemLeads` | caesar/llm/ollama.py:52-103 | at most one system entry, in front, present exactly when there is system text |
| `Wire.PromptLeads` | caesar/llm/openai.py:69-69 | an empty conversation leads with the prompt, unless that is empty or absent |
| `Wire.TurnLeads` | caesar/llm/openai.py:72-74 | appending a system turn appends a blank line and its content to the leading text, or makes its content the leading text; no other turn changes it |
| `Wire.LeadingIff` | caesar/llm/ollama.py:61-103 | there is a leading text exactly when the prompt is not empty or there is a system turn; without system turns it is the prompt |
| `Wire.DialectsAgree` | caesar/llm/ollama.py:52-103 | re-encoding arguments and empty content turns one translation into the other |
| `Wire.Complete` | caesar/llm/anthropic.py:80-101 | the hoisting loop: the system argument is the leading text of the other formats, and the other turns are translated one by one |
| `Wire.AnthropicSaysTheSame` | caesar/llm/anthropic.py:28-63 | the same words, calls and results in the same order, up to reordering inside a user turn |
| `Wire.FinePrint` | caesar/llm/anthropic.py:28-63 | result blocks keep id, content and error flag in order behind at most one text block; an empty assistant text is null in one dialect and empty in the other |
| `Brain.BrainGraph.DispatchServiceCall` | caesar/praetor/dispatch.py:27-54 | policy, then Home Assistant, then the audit row; a refusal is only audited |
| `Brain.BrainGraph.HandleCallService` | caesar/praetor/graph.py:257-280 | invalid input is an error result without effects; otherwise the dispatch and its wording |
| `Brain.BrainGraph.HandleRecall` | caesar/praetor/graph.py:282-314 | the recall tools go to their worker without a decision |
| `Brain.BrainGraph.HandleGenericTool` | caesar/praetor/graph.py:316-380 | decision, worker, audit row, and the result for each way it can go |
| `Brain.BrainGraph.DispatchTools` | caesar/praetor/graph.py:417-489 | every use of a turn in order until one raises |
| `Brain.BrainGraph.Run` | caesar/praetor/graph.py:382-508 | the whole graph: transcript, outcome and effects |
| `Brain.LoopBounded` | caesar/praetor/graph.py:491-496 | at most max(1, max_iterations) model calls; the last turn has unanswered uses only when the cap was hit |
| `Brain.RunAlternates` | caesar/praetor/graph.py:382-489 | the transcript is the initial list, then assistant turns alternating with replies to the same ids in the same order; the lists asked are its prefixes |
| `Story.HandledTold` | caesar/praetor/graph.py:257-380 | one tool use: its own input is what is judged, called or dispatched, under its tool's capability; what it has done when it is answered, and what its result says (the worker's own answer, or an error for a refusal or a failed worker); and from which collaborator an exception escaped otherwise |
| `Story.RunTold` | caesar/praetor/graph.py:382-489 | the effects of a whole run are those of the tool uses of its assistant turns, from the first one on and in order, each as told by `UseTold`, and the transcript has just their results |
| `Story.RunKeepsAnswers` | caesar/praetor/graph.py:382-415 | each answer of the model is the next assistant turn, word for word, and the last one is the outcome; a question without an answer aborts the run |
| `Brain.EveryQuestionWellFormed` | caesar/praetor/graph.py:382-415 | every list handed to the model translates to a well formed OpenAI or Ollama conversation if the initial list is paired |
| `Brain.RunGated` | caesar/praetor/graph.py:316-380 | on every trace, aborted or not, each Home Assistant call and each gated dispatch comes right after the policy's own allowing decision on that call, each audit row right after what it records, and a refusal is followed by its denial row or nothing |
| `Brain.OnlyListedEffects` | caesar/praetor/dispatch.py:37-54 | under the allow-list Home Assistant is called only for calls some rule permits, and a gated capability is dispatched only on inputs that a rule for its tool matches |
| `Brain.CapabilitiesApart` | caesar/praetor/graph.py:435-472 | each tool has a capability of its own, and exactly those of the gated tools need consent |
| `Brain.RunCounted` | caesar/praetor/graph.py:417-489 | a run that is not aborted leaves one service row for each answered valid call_service use and one tool row for each answered gated use |
| `RateLimit.LoginRateLimiter.Prune` | caesar/praetor/dashboard/rate_limit.py:39-43 | drops expired failures from the front, for this client only |
| `RateLimit.LoginRateLimiter.Check` | caesar/praetor/dashboard/rate_limit.py:45-50 | prunes, then says whether the queue has room; other clients untouched |
| `RateLimit.LoginRateLimiter.RecordFailure` | caesar/praetor/dashboard/rate_limit.py:52-57 | prunes, then appends the failure |
| `RateLimit.LoginRateLimiter.RetryAfterSeconds` | caesar/praetor/dashboard/rate_limit.py:59-71 | nothing to wait with room in the queue, else the rest of the oldest failure's window; an IndexError for an empty queue that counts as full |
| `RateLimit.LoginRateLimiter.PostLogin` | caesar/praetor/dashboard/routes.py:104-122 | check, then throttle, record or welcome; other clients untouched |
| `RateLimit.CheckIffFew` | caesar/praetor/dashboard/rate_limit.py:45-50 | after any operations a check says yes exactly when fewer than the allowed number of all recorded failures are at most one window old |
| `RateLimit.LoginsThrottle` | caesar/praetor/dashboard/routes.py:110-122 | whatever logins come in, no closed window holds more failures than allowed |
| `RateLimit.LoginOutcome` | caesar/praetor/dashboard/routes.py:104-122 | with fewer recent failures than allowed a right token is welcome and a wrong one invalid, and only that is recorded; otherwise the client is throttled whatever its token |
| `RateLimit.ThrottledAdvice` | caesar/praetor/dashboard/routes.py:111-118 | a login after the seconds told is not throttled, and one a second earlier still is |
| `RateLimit.CrashesIff` | caesar/praetor/dashboard/rate_limit.py:67-71 | a login raises exactly when the limit is not positive |
| `RateLimit.RoomIff` | caesar/praetor/dashboard/rate_limit.py:39-50 | a full queue has room again exactly when its entry number max from the back has expired |
| `RateLimit.AdviceIsRight` | caesar/praetor/dashboard/routes.py:111-118 | waiting the advertised whole seconds always unblocks; waiting exactly the positive remainder does not |
| `Registry.WorkerRegistry.OnRegister` | caesar/legion/registry.py:77-90 | the dictionary entry is replaced in place or added, and the iterators rebuilt |
| `Registry.WorkerRegistry.RebuildRR` | caesar/legion/registry.py:92-97 | one fresh iterator for each listed capability, over the ids that list it |
| `Registry.PutUpdates` | caesar/legion/registry.py:83-83 | a registration changes only the entry of its own id |
| `Registry.WorkerRegistry.Pick` | caesar/legion/registry.py:104-108 | the id under the iterator, which moves on; an error when there is none |
| `Registry.PickAfterRun` | caesar/legion/registry.py:99-108 | after any registrations and picks, a pick succeeds exactly when the scan finds somebody, and gives one of those |
| `Registry.IdsAreFind` | caesar/legion/registry.py:92-102 | if nobody lists the capability twice the iterator runs over the scan's result, in its order |
| `Registry.PicksAreFair` | caesar/legion/registry.py:77-108 | after any run from the empty registry, of any n picks between registrations each of k workers gets n/k rounded down or up, if k is 1 or nobody lists the capability twice |
| `Registry.PicksAreFairIfListedOnce` | caesar/legion/registry.py:77-108 | so after registrations that name the capability at most once each |
| `Registry.AlwaysFairIff` | caesar/legion/registry.py:92-108 | every window of picks from every place of the iterator is fair exactly when at most one worker is found or nobody lists the capability twice |
| `Registry.UnfairPicks` | caesar/legion/registry.py:77-108 | after a registration that leaves two workers and one who lists the capability twice, two picks in a row go to that one |
| `Allowlist.GroupServices` | caesar/policy/allowlist.py:87-91 | the dictionary holds, under each id, the rules of that id in file order |
| `Allowlist.AllowlistPolicy.EvaluateService` | caesar/policy/allowlist.py:115-166 | the grouped, two-loop evaluation gives the verdict and reason of a linear scan |
| `Allowlist.AllowlistPolicy.EvaluateTool` | caesar/policy/allowlist.py:170-198 | the same for tools, with the exception a matcher may raise |
| `Allowlist.AllowlistPolicy.Evaluate` | caesar/policy/allowlist.py:108-111 | both kinds of call |
| `Allowlist.AllowedIffPermitted` | caesar/policy/allowlist.py:115-166 | a service call is allowed exactly when some rule has its id and is permissive or covers all its entity ids |
| `Allowlist.AllowedExactly` | caesar/policy/allowlist.py:36-48 | read off `target.entity_id` and the rules' fields: allowed exactly when a rule for the service has no limit or lists the one id, or every string of the list, that the call gives; the decision then names the service |
| `Allowlist.ReasonExactly` | caesar/policy/allowlist.py:115-166 | which of the five reasons is given |
| `Allowlist.OrderIrrelevant` | caesar/policy/allowlist.py:115-166 | rule order changes neither verdict nor reason |
| `Allowlist.AddingKeepsAllowed` | caesar/policy/allowlist.py:115-166 | adding a rule anywhere never turns allow into deny |
| `Allowlist.EmptyListCovered` | caesar/policy/allowlist.py:36-48 | an empty list of entity ids is covered by any rule for the service |
| `Allowlist.ToolAllowedIff` | caesar/policy/allowlist.py:51-81 | a tool call is allowed exactly when some rule matches and none before it raises |
| `Allowlist.UnrestrictedFits` | caesar/policy/allowlist.py:51-81 | a rule without a domain list, or a call without a domain, fits |
| `Allowlist.RestrictedFits` | caesar/policy/allowlist.py:64-70 | otherwise the domain must be in the list, for each kind of value the list may be; which of them raise |
| `Allowlist.ToolDecision` | caesar/policy/allowlist.py:170-198 | when the evaluation raises, and verdict, reason and rule when it does not |
| `Allowlist.ToolOrderIrrelevantIff` | caesar/policy/allowlist.py:170-198 | all orders of the rules give a tool call the same outcome exactly when it is not the case that one rule for the tool raises on it and another matches it |
| `Allowlist.ToolOrderMatters` | caesar/policy/allowlist.py:51-81 | two rules that allow a call in one order and raise in the other |
| `Allowlist.AddingToolIff` | caesar/policy/allowlist.py:170-198 | an allowed tool call stays allowed when a rule is added exactly when the new rule does not raise on it or comes after a matching one |
| `Allowlist.AllowedServiceUnique` | caesar/policy/yaml_loader.py:34-34 | a rule id has one dot, so all calls a rule lets through are for one domain and one service |
| `HaSubscription.ResilientHAEventStream.ConsumeOneSubscription` | caesar/ha/subscription.py:126-155 | one connection: announced at its first event, every event handed on until a stop is seen, callback errors audited |
| `HaSubscription.ResilientHAEventStream.RunStream` | caesar/ha/subscription.py:97-124 | connect, consume, back off, until stopped |
| `HaSubscription.RunSums` | caesar/ha/subscription.py:97-164 | connections counted = those with at least one event; what the callback saw, the announcements and all backoffs, over any run |
| `HaSubscription.HeardAllIff` | caesar/ha/subscription.py:140-152 | a callback error drops nothing; events are missed exactly when the announcement fails, or an error row fails or a stop is signalled before the last of them |
| `HaSubscription.ErrorsRecorded` | caesar/ha/subscription.py:140-150 | one error row for each callback that raised on an event it was handed, if the row could be written |
| `HaSubscription.AuditedRun` | caesar/ha/subscription.py:126-155 | with the log up the callback sees the concatenation of all events up to the stop, and the rows are one opened and reconnected 2, 3, ... |
| `HaSubscription.NumberedRows` | caesar/ha/subscription.py:134-139 | one opened row exactly when the count is at least 1, then the reconnected rows in order |
| `HaSubscription.BackoffIff` | caesar/ha/subscription.py:100-124 | the n-th backoff is min(initial·2ⁿ, max), for n ≥ 1 exactly when max is not negative or the first doubling is below it, for n = 0 exactly when initial is at most max |
| `AuditBus.AuditEventBus.Get` | caesar/praetor/audit_bus.py:45-49 | hands over the head of this subscriber's queue |
| `AuditBus.AuditEventBus.Publish` | caesar/praetor/audit_bus.py:30-40 | every queue is offered the event whatever the others do; the count is that of the full ones |
| `AuditBus.RunFaithful` | caesar/praetor/audit_bus.py:30-51 | in every interleaving received then queued events are the published ones that were not dropped, in order; published = received + queued + dropped; the queue keeps its bound |
| `AuditBus.DroppedIff` | caesar/praetor/audit_bus.py:33-38 | an event is dropped for a subscriber exactly when its own backlog has reached the bound |
| `AuditBus.Independent` | caesar/praetor/audit_bus.py:30-51 | each subscriber fares as it would alone |
| `AuditBus.UnboundedKeepsAll` | caesar/praetor/audit_bus.py:45-45 | with a size of zero or less nothing is dropped |

## Left out

- Language-model, Home Assistant, bus, SQL, filesystem and HTTP calls are oracles; so are JSON text, cron slots and square roots.
- Floating-point rounding: confidences, similarities, clocks of the throttle and backoffs are real numbers.
- Timestamps are integers; time zones, daylight saving and the time-window matcher are not modelled.
- `list_all`, `_parse_facts` and `_format_chat_for_extraction`: an attempt is given the transcript and the parsed answer of each row.
- Retention sweeps, which delete old audit rows, and what row-id reuse after a sweep would do.
- Chats logged between two upserts of one running batch, and two batches running at once.
- Operator edits of facts in the middle of an extraction run (`MemoryExtract`); on their own they are in `FactsStore`.
- Task cancellation in mid-step and the distribution of the jitter; `stop` falls between steps.
- Scheduler audit rows and their failures; the audit rows of the subscription's `stop`, and a subscription without an audit log.
- The validation text of an invalid call_service input is shortened to "Invalid call_service input"; policy reasons are worded by a formatter.
- Membership of a non-string `domain` in a tool rule's list is structural equality, without Python's equality of numbers and booleans.
- The audit row in `Semantic` keeps its raw type and dictionary, in `AuditLog` it is a typed event; the two logs are not joined in one run.
- Registry dispatch over the bus and its audit row, the registration message's JSON, dashboard pages, cookies, tokens, metrics, tracing, configuration, `TaskRouter` and the workers themselves: library-bound or easy.
