# A verified model of the platform's protocols and algorithms

This project restates, in Dafny, the parts of the repository that hold real algorithms or protocols,
and proves what they promise over all inputs and all runs.

| part | files |
|---|---|
| research workers that claim rows next to a reconciler; the planning of a turn | `ResearchTimeline.dfy`, `TurnPlanning.dfy` |
| the dollar-quote-aware SQL splitter | `SqlReference.dfy` (what a split means), `SqlSplitter.dfy` (the scanner) |
| the hand-written PDF writer, with an independent reader | `Pdf.dfy`, `PdfReader.dfy`, `Decimal.dfy` |
| streamed chat completions, the bounded tool loop, the tool registry and its table | `ToolStream.dfy`, `ToolLoop.dfy`, `ToolRegistry.dfy` |
| directory digests, backup manifests, object export and restore | `Hashing.dfy`, `Paths.dfy`, `DirectoryDigest.dfy`, `BackupRestore.dfy` |
| department visibility and its triggers, showcase ordering, shared conversations | `DeptVisibility.dfy`, `Showcase.dfy`, `Collaboration.dfy` |
| shared vocabulary | `Text.dfy`, `Sets.dfy` |

Loops and objects that the source updates in place are methods and classes here, each proved equal to
a specification function; the promises are lemmas about those functions. The worker protocols, tool
table, departments and conversations are step systems whose runs are arbitrary lists of actions, so a
run is an interleaving. What the code cannot see into enters as a parameter: JSON reading, hashing,
the outcome of tools and completions, the order in which a file system or a query lists things.

Some promises turn out not to hold of the code as written. For each of these a lemma gives the exact
condition under which the promise does hold, most of them next to a run or an input that breaks it:

- the run finalizer reads a run and then writes it by id, although its documentation speaks of a
  compare-and-set, so a reconciler pass in between is overwritten (`FinalizerOverwritesReconciler`;
  exactly when: `RowsFollowEdges`, `CanOverwriteExactly`; and when an outcome is final:
  `OutcomeStaysExactly`);
- a run cancelled under its worker does not stay cancelled: the finalizer refuses to complete it and
  then fails it, so the answer of a run of any age can be lost (`CancelledUnderItsWorker`; exactly
  when a cancelled run stays so: `CancelledStaysExactly`);
- the reconciler measures age from submission, not from the claim, so a run claimed late is failed
  while its worker is alive (`LateClaimIsPaidAndLost`; exactly when: `CanBeLostExactly`, and what is
  safe: `YoungAnswerIsKept`);
- overlapping deliveries of the planning task give a turn two plans, or a failed turn a plan
  (`OverlapBindsTwoPlans`, `OverlapFailsATurnWithAPlan`; exactly when: `CanBindExactly`,
  `SpacedExactly`, `CanFailWithAPlanExactly`);
- after a failed turn is started again, a slow delivery of the first attempt can bind its plan into the
  second or fail it (`EarlierAttemptDecidesLater`; exactly when: `CanBeDecidedLateExactly`,
  `CleanStartsExactly`);
- fallback identifiers of tool calls are built differently at their two sites, and a failure in the
  bookkeeping after a tool ran answers its call twice (exactly when: `FallbacksMeet`, `BatchAnswers`);
- a stream stopped for length without text fails where the one-shot parser answers
  (exactly then: `StreamAgreesWithParse`);
- overlapping sessions pass the tools' optimistic lock (`OverlappingSessionsLoseAWrite`; exactly when:
  `VersionCountsWrites`);
- object keys that are not the text of a path, or are called `objects.json`, do not survive a backup
  that reports success (`DoubledSlashRestoresElsewhere`; exactly when: `RoundTrip`);
- the visibility query does not end on some tables with cycles (exactly which: `QueryEndsExactly`);
- the sentinel trigger looks at the old code only (`RewrittenCodeUnprotects`,
  `TwoStatementsMoveAnything`; exactly when it protects: `ProtectedFromOneStatement`,
  `ProtectedFromRuns`);
- the SQL splitter takes dollar quotes where the PostgreSQL manual has none
  (`DepartureSplitsOtherwise`; exactly when it reads as the manual: `ReadsAsTheManualExactly`);
- reordering by a partial list, and overlapping additions, can leave ties (`PartialReorderTies`,
  `OverlappingAdditionsTie`; exactly when: `ReorderStaysDistinct`, `RunsStayDistinct`);
- a creator who removes their own row can strand a member between the tabs
  (`RemovedCreatorStrandsMember`; exactly which states are safe from it: `StrandsNobodyExactly`,
  `TabsPartitionExactly`).

Hash functions are taken to be foldable, and injective where a theorem says so; SHA-256 is only
collision-resistant, so read those theorems as "or a collision has been found".

`dafny verify dfyconfig.toml` checks the whole project.

## Model

| member | source | states |
|---|---|---|
| ResearchTimeline.InvStep | apps/worker/research_timeline_tasks.py:511-1087 | every delivery, claim, AI call, final write, cancellation, crash and reconciler step keeps: one worker per row and none while it is queued; no AI call behind a claim still to call; rows locked by an open pass unchanged |
| ResearchTimeline.AiCalledAtMostOnce | apps/worker/research_timeline_tasks.py:511-544 | over every interleaving of duplicate deliveries, crashes and reconciler passes the AI is called at most once per run and at most once per extraction job |
| ResearchTimeline.SucceededWasAnswered | apps/worker/research_timeline_tasks.py:561-687 | over every run nothing succeeds for which the model has not answered in that run |
| ResearchTimeline.EventsMatchRows | packages/research/timeline/run_finalizer.py:94-115 | over every run exactly the rows there are have had an event sent, and a run that succeeded has its extraction job, with its event |
| ResearchTimeline.RowsFollowEdges | packages/research/timeline/run_finalizer.py:56-137 | every step moves every row along queued, running, ended (a job also queued to failed, an active run also to cancelled), except exactly the steps in which a run's finalizer, or a request to cancel it, writes another outcome over a run that has ended |
| ResearchTimeline.StatusOnlyMovesForward | apps/worker/research_timeline_tasks.py:736-978 | over whole runs an extraction job only moves forward and an ended one never changes; so does a run that no finalizer and no request to cancel overwrites; no row returns to the queue |
| ResearchTimeline.LockedRowKept | apps/worker/research_timeline_tasks.py:1026-1066 | while a pass holds a row lock no other step changes that row |
| ResearchTimeline.FewAreAllPicked | apps/worker/research_timeline_tasks.py:1026-1066 | with at most a hundred stale unlocked rows per table, the two queries pick all of them |
| ResearchTimeline.PassSettles | apps/worker/research_timeline_tasks.py:1024-1087 | whatever happens between the queries of a pass and its commit, a row it picked as running fails, one it picked as queued stays queued with exactly one new outbox event, and other rows are as it found them |
| ResearchTimeline.PassSettlesStaleRows | apps/worker/research_timeline_tasks.py:1024-1087 | a pass that finds at most a hundred stale unlocked rows in each table does so to every one of them and touches nothing else |
| ResearchTimeline.TwoQueriesAsOne | apps/worker/research_timeline_tasks.py:1026-1066 | whatever happens between the query for runs and the one for jobs happens just so without the open pass, and the runs picked first may be picked at the instant of the second together with the jobs, with the status that was read |
| ResearchTimeline.ForgetCommutes | apps/worker/research_timeline_tasks.py:1026-1066 | an open pass only holds others up: every run next to it is also a run without it, and leads to the same state but for the pass |
| ResearchTimeline.LateClaimIsPaidAndLost | apps/worker/research_timeline_tasks.py:1015-1055 | age is measured from submission: a reachable run in which the AI was called, the run failed and its answer is lost |
| ResearchTimeline.CanBeLostExactly | apps/worker/research_timeline_tasks.py:1015-1087 | from any state and within any time, with or without new requests to cancel: others can take a worker's running row away exactly when an open pass has read it, a request to cancel it is under way or may come in, or that time is more than ten minutes after its submission |
| ResearchTimeline.YoungAnswerIsKept | apps/worker/research_timeline_tasks.py:657-687 | an answered run that is within ten minutes of its submission at its write, read by no open pass and cancelled by nobody, is written as succeeded whatever else others do, and overwrites nothing |
| ResearchTimeline.YoungJobIsKept | apps/worker/research_timeline_tasks.py:936-958 | the same for an extraction job |
| ResearchTimeline.FinalizerOverwritesReconciler | packages/research/timeline/run_finalizer.py:56-70 | a reachable state in which a failed run is about to be overwritten as succeeded |
| ResearchTimeline.CanOverwriteExactly | packages/research/timeline/run_finalizer.py:56-70 | a finalizer that has read its running row can come to write success over a failed or cancelled run, within any time, exactly under the condition of CanBeLostExactly |
| ResearchTimeline.CancelledStaysExactly | packages/research/timeline/run_finalizer.py:123-142 | from any state, a cancelled run stays cancelled over every continuation exactly when no worker is on it |
| ResearchTimeline.CancelledUnderItsWorker | packages/research/execution/run_service.py:237-280 | however young the run: a reachable run in which the AI answered, a user cancelled, and the run's own worker turned cancelled into failed |
| ResearchTimeline.OutcomeStaysExactly | packages/research/timeline/run_finalizer.py:56-142 | from any state that a run reaches, a row that succeeded or failed stays so over every continuation exactly when no request to cancel it is under way and no finalizer is about to write success over it |
| ResearchTimeline.NoWorkerOnSucceeded | apps/worker/research_timeline_tasks.py:657-687 | over every run no worker is on a row that succeeded |
| ResearchTimeline.AbandonedNeverSucceeds | apps/worker/research_timeline_tasks.py:511-544 | a claimed row whose worker is gone never succeeds, whatever is delivered again |
| ResearchTimeline.CrashAbandons | apps/worker/research_timeline_tasks.py:511-544 | a crash leaves the row of its worker so |
| ResearchTimeline.EveryRowCanEnd | apps/worker/research_timeline_tasks.py:1015-1087 | no dead end: from every state that a run reaches every row can still end |
| ResearchTimeline.JobTaskIsARun | apps/worker/research_timeline_tasks.py:742-978 | an undisturbed extraction delivery, configured or not, answered or not, is a run of the protocol that ends the job and calls the AI exactly when configured |
| ResearchTimeline.RefusalIsARun | apps/worker/research_timeline_tasks.py:745-790 | one whose turn or plan is missing is a single step that fails a queued job |
| ResearchTimeline.RunTaskIsARun | apps/worker/research_timeline_tasks.py:511-687 | an undisturbed run delivery is a run of the protocol: claim, call, the finalizer's read and its write; it ends with the rows and the outbox that Tables.ExecuteAnalysisRun states, the extraction job and its event among them |
| ResearchTimeline.FailedWriteFailsRun | apps/worker/research_timeline_tasks.py:657-687 | a finalizer whose transaction does not commit fails the run instead |
| ResearchTimeline.CancelIsARun | packages/research/execution/run_service.py:254-280 | an undisturbed cancellation is a read and a write, or a read that changes nothing, with the effect that Tables.CancelRun states |
| ResearchTimeline.Tables.UpdateStatus | packages/research/timeline/repository.py:555-586 | the compare-and-set on status: it changes the row exactly when the row has the expected status, and says so |
| ResearchTimeline.Tables.ExtractCandidates | apps/worker/research_timeline_tasks.py:724-983 | undisturbed, a queued job is claimed and ends, and the AI is reached exactly for a queued job with context and configuration; any other delivery changes nothing |
| ResearchTimeline.Tables.ExecuteAnalysisRun | apps/worker/research_timeline_tasks.py:511-687 | undisturbed, a queued run ends; success creates the extraction job once and sends one event |
| ResearchTimeline.Tables.CancelRun | packages/research/execution/run_service.py:254-280 | undisturbed, an active run is cancelled and any other is refused and left alone |
| ResearchTimeline.Tables.VisitRows | apps/worker/research_timeline_tasks.py:1035-1055 | a reconciler loop is the visit of each row in order: queued rows requeued, running rows failed, counters counted |
| ResearchTimeline.Tables.ReconcileTimeline | apps/worker/research_timeline_tasks.py:1024-1089 | both loops together write what a committed pass writes, and count the requeued and the failed rows |
| TurnPlanning.LeavesPlanningOncePerStart | packages/research/timeline/turn_service.py:359-417 | conservation over any run, however deliveries overlap: the times the turn left planning, and the planning still open, make up the times planning was started and the planning open before |
| TurnPlanning.OutcomeIsFinal | packages/research/timeline/repository.py:158-212 | over any run a reviewed turn only goes on to confirmed, which is final, and a failed one stays failed until it is started again |
| TurnPlanning.CanBeDecidedLateExactly | apps/worker/research_timeline_tasks.py:382-440 | from any state, before the turn is started again, a delivery of an earlier attempt can end the current one exactly when the turn is planning and such a delivery is under way |
| TurnPlanning.CleanStartsExactly | packages/research/timeline/turn_service.py:384-415 | over a whole run no attempt is ever exposed to an earlier one exactly when each start finds no delivery under way |
| TurnPlanning.EarlierAttemptDecidesLater | packages/research/timeline/repository.py:189-212 | a reachable second attempt that a delivery of the first can end |
| TurnPlanning.ReviewHasAPlan | apps/worker/research_timeline_tasks.py:417-432 | over every run a turn under review, or confirmed, has a plan bound to it |
| TurnPlanning.SerialDeliveriesBindOnePlan | apps/worker/research_timeline_tasks.py:348-432 | when deliveries do not overlap at all, crashes included, at most one plan is bound and a failed turn has none |
| TurnPlanning.DeliveryRaisesPotential | apps/worker/research_timeline_tasks.py:348-380 | a delivery adds a possible plan exactly when the turn is planning and has none bound |
| TurnPlanning.CanBindExactly | apps/worker/research_timeline_tasks.py:348-432 | from any state, without a further delivery, the turn can end up with n plans exactly when the plans bound and the deliveries that have not failed make n |
| TurnPlanning.SpacedExactly | apps/worker/research_timeline_tasks.py:348-432 | over a whole run two plans are never within reach exactly when each delivery let through finds no other that could still bind one |
| TurnPlanning.CanFailWithAPlanExactly | apps/worker/research_timeline_tasks.py:382-432 | from any state, without a further delivery but with any starts and confirmations, the turn can end up failed and with a plan exactly when it has failed and can get one, or has had no outcome yet and a delivery can fail next to a plan or to another delivery that can bind one |
| TurnPlanning.OverlapBindsTwoPlans | apps/worker/research_timeline_tasks.py:348-432 | a run of two overlapping deliveries that binds two plans |
| TurnPlanning.OverlapFailsATurnWithAPlan | apps/worker/research_timeline_tasks.py:393-432 | a run that ends with a failed turn that has a plan |
| TurnPlanning.LoneDelivery | apps/worker/research_timeline_tasks.py:348-440 | what a delivery on its own comes to, for each state of the turn and each outcome of the generation |
| TurnPlanning.BoundPlanIsReviewed | apps/worker/research_timeline_tasks.py:346-370 | a bound plan is not lost: whatever else is under way, a redelivery takes a planning turn that has one to review, and a start and a delivery take a draft or failed turn there |
| TurnPlanning.CanBeConfirmed | packages/research/timeline/turn_service.py:419-500 | no dead end: from every state that a run reaches the turn can still be confirmed, with a plan |
| TurnPlanning.Turn.StartPlanning | packages/research/timeline/repository.py:189-225 | a draft, or a turn whose planning failed, enters planning; any other is refused and left alone |
| TurnPlanning.Turn.GeneratePlan | apps/worker/research_timeline_tasks.py:348-440 | an undisturbed delivery does what the steps of the protocol do |
| SqlSplitter.SkipTag | migrations/versions/0001_squashed_baseline.py:1545-1547 | the nested lookahead loop ends at the first character that cannot belong to a tag |
| SqlSplitter.ScanSql | migrations/versions/0001_squashed_baseline.py:1537-1575 | the scanner's loop is its step function iterated; both loops terminate |
| SqlSplitter.RunIsOutlook | migrations/versions/0001_squashed_baseline.py:1542-1575 | from every scanner state, open quote or not, the steps yield what the reference reading yields of the rest |
| SqlSplitter.SplitSql | migrations/versions/0001_squashed_baseline.py:1525-1575 | the splitter computes the reference split: the trimmed non-blank segments between top-level semicolons |
| SqlReference.RawConserves | migrations/versions/0001_squashed_baseline.py:1542-1575 | conservation: the raw segments rejoined with their semicolons are the input |
| SqlReference.SemicolonSeparates | migrations/versions/0001_squashed_baseline.py:1544-1568 | a semicolon separates exactly when the text before it leaves no dollar quote open, an unfinished tag included |
| SqlReference.SplitDistributes | migrations/versions/0001_squashed_baseline.py:1562-1575 | split(a + ";" + b) = split(a) + split(b) whenever a leaves no quote open |
| SqlReference.RoundTrip | migrations/versions/0001_squashed_baseline.py:1525-1575 | joining and splitting gives a list back exactly when its statements are trimmed, not blank, single and closed (the last may be open); what splitting gives always is such a list, so splitting again changes nothing |
| SqlReference.QuoteSurvives | migrations/versions/0001_squashed_baseline.py:1549-1561 | a dollar-quoted string, semicolons included, stays in one piece, and reading resumes behind its closing tag |
| SqlReference.UnclosedSwallows | migrations/versions/0001_squashed_baseline.py:1555-1570 | an open quote swallows the next semicolon |
| Text.FindIsFirst | migrations/versions/0001_squashed_baseline.py:1555 | a quote ends at the first occurrence of its tag |
| SqlReference.OpenerExactly | migrations/versions/0001_squashed_baseline.py:1544-1550 | a quote opens with exactly the strings that are a dollar, letters, digits and underscores, and a dollar |
| Text.TrimExactly | migrations/versions/0001_squashed_baseline.py:1563-1572 | trimming removes outer whitespace and nothing else: it gives the only string without outer whitespace that the text is but for whitespace around it |
| SqlReference.StatementsAreSegments | migrations/versions/0001_squashed_baseline.py:1562-1575 | the statements are, in order, the stretches between top-level semicolons that are not blank, each with its outer whitespace gone and all else in place |
| SqlReference.ReadsAsTheManualExactly | migrations/versions/0001_squashed_baseline.py:1544-1561 | the scanner divides a text into the same elements as section 4.1.2.4 of the PostgreSQL manual exactly when it never takes a quote inside an identifier or with a tag that starts with a digit |
| SqlReference.SplitsAsTheManual | migrations/versions/0001_squashed_baseline.py:1525-1575 | on such texts the split is the one of that section |
| SqlReference.DepartureSplitsOtherwise | migrations/versions/0001_squashed_baseline.py:1544-1561 | a text with a semicolon that separates by the manual and not by the scanner |
| PdfWriter.ThreeReplacesEscapeOnce | examples/particle-size/generate.py:112-116 | the three successive replacements escape each character exactly once |
| PdfWriter.ContentStream | examples/particle-size/generate.py:110-121 | the joined parts are the content stream of the lines |
| PdfWriter.AssembleBody | examples/particle-size/generate.py:142-148 | the body holds the numbered objects in order and the offsets are the positions at which they were begun |
| PdfWriter.AppendXref | examples/particle-size/generate.py:151-156 | the cross-reference table has one entry for each offset |
| PdfWriter.GenerateMinimalPdf | examples/particle-size/generate.py:102-164 | the writer gives the specified file, or fails when a line is outside Latin-1 |
| PdfReader.EscapeReads | examples/particle-size/generate.py:112-117 | a literal-string reader (section 7.3.4.2 of ISO 32000-1) reads an escaped line up to the parenthesis that closes it and gives the line back, ends of line normalised |
| PdfReader.NormalKeeps | examples/particle-size/generate.py:112-117 | normalising ends of line changes exactly the lines with a carriage return |
| PdfReader.EntryIsTwentyBytes | examples/particle-size/generate.py:155-156 | an entry is twenty bytes, and readable (section 7.5.4 of ISO 32000-1), exactly for offsets below 10^10 |
| PdfReader.XrefHere | examples/particle-size/generate.py:151-156 | the whole table reads back exactly when every offset fits |
| PdfReader.OffsetsPointAtObjects | examples/particle-size/generate.py:144-148 | at the k-th offset stand "k 0 obj" and the k-th object |
| PdfReader.StreamHere | examples/particle-size/generate.py:131-137 | /Length is the stream's byte length (section 7.3.8.2 of ISO 32000-1): cutting that many bytes leaves the end of the stream |
| PdfReader.FileReads | examples/particle-size/generate.py:141-164 | for any list of objects, startxref leads to the table (section 7.5.5 of ISO 32000-1), the table to the offsets, and each offset to its object |
| PdfReader.PageFound | examples/particle-size/generate.py:118-164 | following /Root, /Pages and /Kids from the trailer (section 7.7 of ISO 32000-1) leads to the page, to its font and to its contents |
| PdfReader.WrittenFileReads | examples/particle-size/generate.py:102-164 | reading a written file from its end, through trailer, catalog, page tree and page to the contents, gives its lines, ends of line normalised, exactly when the last offset fits |
| PdfReader.TextRoundTrip | examples/particle-size/generate.py:102-164 | the lines come back unchanged exactly when the offsets fit and no line has a carriage return |
| PdfReader.ShortFilesFit | examples/particle-size/generate.py:151-162 | files of at most 10^10 bytes are always readable |
| Decimal.Pad10Reads | examples/particle-size/generate.py:156 | a padded numeral reads back, and has ten digits exactly below 10^10 |
| Decimal.DecReads | examples/particle-size/generate.py:133 | a printed number reads back |
| ToolStream.AbsorbOne | packages/ai/openai_compatible.py:281-296 | one fragment changes one entry: last identifier, last name, argument text appended |
| ToolStream.TableIsByIndex | packages/ai/openai_compatible.py:280-296 | the table has an entry for exactly the indices that occurred, and each entry is what the fragments of its index spell on their own |
| ToolStream.ReadBody | packages/ai/openai_compatible.py:232-312 | the loop over the lines, with cancellation, end marker, skipped lines and every way the body ends |
| ToolStream.AscendingIsSorted | packages/ai/openai_compatible.py:330 | the indices in strictly ascending order, each once |
| ToolStream.AssembleCalls | packages/ai/openai_compatible.py:329-343 | one call per index, in ascending order of index |
| ToolStream.StreamComplete | packages/ai/openai_compatible.py:179-345 | the events of a completion are those of the reference reading, whatever the status, the lines and the end of the body |
| ToolStream.LinesAreRead | packages/ai/openai_compatible.py:232-262 | lines that are the prefix and a readable chunk, with blank, unprefixed and unreadable ones in between, give those chunks; the end marker stops the reading, and a cancellation or the end of the body cuts it off with the problem that says so |
| ToolStream.EveryBodyCarries | packages/ai/openai_compatible.py:232-262 | every body is of that kind up to its end, its first cancelled line or its end marker |
| ToolStream.PlainLine | packages/ai/openai_compatible.py:243-256 | the prefix followed by the text of a chunk carries that chunk |
| ToolStream.PlainMarker | packages/ai/openai_compatible.py:249-251 | the line "data: [DONE]" is the end marker |
| ToolStream.CutBodyFails | packages/ai/openai_compatible.py:234-312 | a body that is cut off passes on what came before, closes with its problem and makes no calls |
| ToolStream.OneClosingEvent | packages/ai/openai_compatible.py:236-345 | text and reasoning events, then exactly one final done or error |
| ToolStream.TextIsContent | packages/ai/openai_compatible.py:273-276 | the text events carry all content deltas in order |
| ToolStream.ReasoningIsPassed | packages/ai/openai_compatible.py:264-271 | the reasoning events carry all reasoning deltas in order |
| ToolStream.HeardInOrder | packages/ai/openai_compatible.py:264-276 | of one delta, reasoning comes before text, and nothing is said for what is empty |
| ToolStream.FinishIsLast | packages/ai/openai_compatible.py:298-301 | the finish reason is the last one given |
| ToolStream.SpellIsLast | packages/ai/openai_compatible.py:281-296 | fragments spell all their argument text in order, the last identifier and the last name that are not empty |
| ToolStream.MissingIndexIsZero | packages/ai/openai_compatible.py:282 | a fragment without an index belongs to call 0 |
| ToolStream.ChunkingDoesNotMatter | packages/ai/openai_compatible.py:280-345 | fragments that spell the same at every index assemble to the same calls, however they interleave |
| ToolStream.CutAnywhere | packages/ai/openai_compatible.py:295-296 | cutting a fragment's argument text in two, with other indices in between, changes nothing |
| ToolStream.ParseResponse | packages/ai/openai_compatible.py:463-536 | the one-shot parser: an error without choices, and otherwise the content and one call per tool call, in order |
| ToolStream.StreamAgreesWithParse | packages/ai/openai_compatible.py:314-345 | deltas that spell out a message give the parser's text, identifiers, tools and arguments (and its summary exactly when the function is named), except exactly when stopped for length without text |
| ToolStream.BodyAgreesWithParse | packages/ai/openai_compatible.py:232-345 | from lines to calls: a body whose lines carry deltas that spell out a message, and the end marker, agrees with the one-shot parse of that message in the same way |
| ToolStream.EveryMessageIsSpelled | packages/ai/openai_compatible.py:262-301 | every message can be streamed: one chunk that spells it out |
| ToolLoop.ProcessOne | packages/ai/ask_executor.py:63-200 | one tool call through validation, permission, execution and bookkeeping, with every way it can fail |
| ToolLoop.ProcessToolCalls | packages/ai/ask_executor.py:31-202 | a batch is its calls processed in order |
| ToolLoop.BatchSize | packages/ai/ask_executor.py:121-200 | a batch has at least one tool message per call, and exactly one exactly when no bookkeeping failed after a result was written |
| ToolLoop.ExecutedMeansReturned | packages/ai/ask_executor.py:71-149 | a call recorded as executed was known, permitted and its tool returned, and the record has its result |
| ToolLoop.ReturnedIsRecorded | packages/ai/ask_executor.py:107-149 | every call whose tool returned is recorded as executed with its result |
| ToolLoop.RecordTellsOutcome | packages/ai/ask_executor.py:68-200 | the records are in the order of the calls, and each call's own record says what happened to it: rejected, forbidden, failed, or executed with its result |
| ToolLoop.SummaryTells | packages/ai/ask_executor.py:121-200 | an executed tool is summarised in its own words, or by its name on display; a failed one with its error |
| ToolLoop.BatchMessage | packages/ai/ask_executor.py:63-200 | in a batch whose bookkeeping did not fail, message k answers call k: with the JSON of its result exactly when it ran through, and with a failure otherwise |
| ToolLoop.ResultIsShown | packages/ai/ask_executor.py:155-165 | the JSON of every result that was written out is in the messages, under the identifier of its call |
| ToolLoop.ShownIsResult | packages/ai/ask_executor.py:155-165 | and the messages hold no other results |
| ToolLoop.CitedExactly | packages/ai/ask_executor.py:167-182 | a batch cites exactly what the calls cite whose result was written out |
| ToolLoop.FallbacksMeet | packages/ai/ask_executor.py:68 | the fallback identifiers of the two sites are equal exactly when no earlier record was doubled and it is the first round, or the tool is named like the round |
| ToolLoop.FallbacksDiffer | packages/ai/ask_executor.py:68 | the fallback identifiers of one assistant message differ from each other, and so do those of one batch |
| ToolLoop.EntriesKeepCalls | packages/ai/ask_executor.py:235-256 | the assistant message carries the calls as the model made them, each under an identifier, the provider's where there is one |
| ToolLoop.BatchAnswers | packages/ai/ask_executor.py:63-202 | a batch answers its assistant message one to one, in order and by identifier, exactly under those conditions |
| ToolLoop.TranscriptWellFormed | packages/ai/ask_executor.py:235-363 | a message-by-message reader accepts a transcript exactly when each of its batches is sound |
| ToolLoop.BuildFinalResponse | packages/ai/ask_executor.py:205-385 | the loop asks the completions of rounds 2 up to the first that fails, calls nothing or is the eleventh, runs the tools of the rounds before, and answers from the last reply or its fallback |
| ToolLoop.Ask | packages/ai/ask_service.py:354-377 | a question from its first response to its final answer |
| ToolLoop.RequestsAreTranscripts | packages/ai/ask_executor.py:257-363 | at most ten further completions and as many batches, the first included; each request is the history and a transcript, well formed exactly when its batches are sound, and extends the one before by one block |
| ToolLoop.RequestsShowResults | packages/ai/ask_executor.py:257-363 | each request holds the JSON of every result written out in the rounds before it, under the identifier of its call |
| ToolLoop.RequestsShowOnlyResults | packages/ai/ask_executor.py:257-363 | and no other results |
| ToolLoop.RequestsShowReplies | packages/ai/ask_executor.py:235-363 | each request repeats what the model said in the rounds before it, with the calls it made |
| ToolLoop.AnswerIs | packages/ai/ask_executor.py:257-385 | the question ends with the first reply that makes no calls, or with the eleventh round; the answer is that reply's, redacted, or when the completion fails the answer before it with what the tools gave, redacted |
| ToolLoop.NothingAsked | packages/ai/ask_executor.py:205-234 | a first response without calls is the answer, redacted, and nothing is asked, recorded or cited |
| ToolLoop.FallbackShows | packages/ai/ask_executor.py:265-313 | the fallback starts with the answer there was and shows the summary of every executed tool, and without one it is just that answer |
| ToolLoop.AnswerCites | packages/ai/ask_executor.py:257-385 | the whole question cites exactly what the calls of its rounds cite whose result was written out |
| ToolLoop.ProviderIdsAreEnough | packages/ai/ask_executor.py:68-96 | with identifiers from the provider and no failed bookkeeping every request is well formed |
| ToolLoop.EveryCallIsRecorded | packages/ai/ask_executor.py:315-334 | a record for every call of every batch run, and exactly one when none failed after being recorded |
| ToolRegistry.Table.Create | packages/ai/tool_repository.py:192-231 | a new name gets an enabled row at version 0; an existing one is a conflict and nothing changes |
| ToolRegistry.Table.Write | packages/ai/tool_repository.py:259-284 | update and set_enabled: not found, conflict on another version, otherwise the changed row at the next version |
| ToolRegistry.Table.SeedMissing | packages/ai/tool_seeding.py:32-48 | the rows after seeding, and how many were inserted |
| ToolRegistry.SeedingOnlyAdds | packages/ai/tool_seeding.py:34-48 | seeding alters no existing row and adds exactly the missing built-in tools, enabled, at version 0 |
| ToolRegistry.SeedingIsIdempotent | packages/ai/tool_seeding.py:22-48 | seeding again changes nothing |
| ToolRegistry.Registry.Start | packages/ai/tools.py:364-410 | initial registration fails exactly on a repeated name and otherwise enables every tool |
| ToolRegistry.Registry.Validate | packages/ai/tools.py:434-465 | whatever rows the registry was loaded from: unknown exactly without a row, refused exactly with a disabled one, and otherwise allowed with the declaration of its row |
| ToolRegistry.Registry.ReloadFromDb | packages/ai/tools.py:506-535 | after a reload, in whatever order the rows came, the registry is the table and its enabled rows |
| ToolRegistry.WriteIsOpenThenFlush | packages/ai/tool_repository.py:259-284 | a one-step write is a session that nothing interrupts |
| ToolRegistry.ValidatesWhatWasLoaded | packages/ai/tools.py:434-535 | over any run a tool validates exactly when its row at the last reload was enabled, with that row's declaration |
| ToolRegistry.VersionCountsWrites | packages/ai/tool_repository.py:259-284 | over any interleaving of sessions the lock version never exceeds the flushed writes, and equals them exactly when none was flushed over a write it had not read |
| ToolRegistry.AtomicWritesAreOrdered | packages/ai/tool_repository.py:312-334 | with one-step writes, a write succeeds exactly when its version is the number of writes before it |
| ToolRegistry.OverlappingSessionsLoseAWrite | packages/ai/tool_repository.py:259-284 | from any state, two sessions opened at the current version both succeed and the version counts one |
| ToolRegistry.DisjointWritesBothShow | packages/ai/tool_repository.py:259-334 | from any state, a redefinition and a switch opened at one version and flushed in either order both show |
| ToolRegistry.ReloadShowsTheWrite | packages/ai/tool_repository.py:259-334 | after any run, a write and a reload: the registry has the new declaration or validity, and nothing of a stale write |
| ToolRegistry.ReloadShowsTheCreation | packages/ai/tool_repository.py:192-231 | after any run, a tool that is added and a reload: it validates, at version 0, with its declaration; a taken name changes nothing |
| ToolRegistry.SeedingCompletes | packages/ai/tool_seeding.py:34-48 | after a seeding in any state every built-in tool is in the table, the missing ones enabled and as declared, and the rows that were there untouched |
| ToolRegistry.RowsOnlyChangeByWrites | packages/ai/tool_repository.py:149-334 | no step removes a row, and a row changes only by a counted write |
| Hashing.Streamed | deployments/compose/backup_manifest.py:146-162 | hashing a file chunk by chunk, for any chunk size, gives the digest of the whole |
| Hashing.LawsCanBeMet | deployments/compose/backup_manifest.py:155-162 | the laws assumed of hashing are consistent |
| Paths.TextNamesPath | deployments/compose/backup_manifest.py:188 | the text of a relative path names that path |
| Paths.OneAscendingList | deployments/compose/backup_manifest.py:181 | sorting leaves one possible order: strictly ascending lists with the same members are equal |
| Paths.SortedAscends | deployments/compose/backup_manifest.py:181 | sorting paths puts them in strictly ascending order, component by component |
| Paths.PathOrderExactly | deployments/compose/backup_manifest.py:181 | that order is the one of the first different component, a directory before what is in it |
| DirectoryDigest.Scan | deployments/compose/backup_manifest.py:165-196 | the scan's metadata is a function of the map from path to content, not of the order in which the file system lists it |
| DirectoryDigest.AggregateDir | deployments/compose/backup_manifest.py:259-289 | the aggregate digest and count of a directory |
| DirectoryDigest.AggregateObjects | deployments/compose/backup_manifest.py:199-214 | the same without files called objects.json |
| DirectoryDigest.DigestIdentifies | deployments/compose/backup_manifest.py:181-214 | two trees have the same digest exactly when they are the same tree |
| DirectoryDigest.MetadataTells | deployments/compose/backup_manifest.py:165-196 | the metadata lists each file once: the text of its path, its digest and its size |
| DirectoryDigest.IndexByText | deployments/compose/backup_manifest.py:199-214 | the files that do not count as objects are those whose path ends in the name objects.json, in any directory |
| DirectoryDigest.ComputeManifest | deployments/compose/backup_manifest.py:217-256 | what a manifest of the first format records |
| DirectoryDigest.ComputeManifest2 | deployments/compose/backup_manifest.py:309-396 | what a manifest of the second format records; missing archives as empty digests |
| DirectoryDigest.Validate1 | deployments/compose/backup_manifest.py:465-526 | the first failing component in the code's order, for any manifest |
| DirectoryDigest.Validate2 | deployments/compose/backup_manifest.py:528-615 | the same for the second format; empty expectations are not compared |
| DirectoryDigest.AcceptedExactly1 | deployments/compose/backup_manifest.py:465-526 | what acceptance says of any manifest of the first format: the dump is there with the recorded digest, and the objects have the recorded number and digest |
| DirectoryDigest.AcceptedExactly2 | deployments/compose/backup_manifest.py:528-615 | and of the second: the base archive is there, every digest that is recorded is that of what is there, and the number of mirrored files is the recorded one |
| DirectoryDigest.VerdictIsDifference | deployments/compose/backup_manifest.py:465-615 | against a manifest computed from some directory, the verdict is the first payload in which the validated directory differs from it |
| DirectoryDigest.Validate | deployments/compose/backup_manifest.py:440-463 | the dispatch on the format, and for every directory the manifest may come from, the first payload that differs |
| DirectoryDigest.ValidatesExactly1 | deployments/compose/backup_manifest.py:465-526 | a directory validates against a recorded manifest exactly when the dump and the objects are there and unchanged |
| DirectoryDigest.ValidatesExactly2 | deployments/compose/backup_manifest.py:528-615 | for the second format exactly when there is a base archive and whatever was recorded is unchanged; an unchanged directory validates exactly when it has a base archive |
| BackupRestore.ListObjects | deployments/compose/backup.py:795-818 | the paging loop terminates and collects the non-empty keys of all pages, or fails with the first failing page |
| BackupRestore.ListedHas | deployments/compose/backup.py:805-813 | a key is listed exactly when it is in some page and not empty |
| BackupRestore.ContainedExactly | deployments/compose/backup.py:748-752 | a key joined to a directory leads, for every directory, to the path below it that its own components name exactly when it has no leading slash and no ".." component |
| BackupRestore.ExportOne | deployments/compose/backup.py:748-761 | one object: directories made, bytes fetched, file written, or a failure recorded, or an exception |
| BackupRestore.ExportObjects | deployments/compose/backup.py:726-779 | the export, its index written even when objects failed, and how it ends |
| BackupRestore.CleanMeansFits | deployments/compose/backup.py:748-761 | all objects are written exactly when all can be fetched and no object's path is empty or a directory of another's; then the disk holds exactly them |
| BackupRestore.ExportOutcome | deployments/compose/backup.py:748-761 | however an export goes: it crashes exactly when an object needs a directory where an earlier one has its file; otherwise the failed ones are, in order, exactly those that cannot be fetched or whose path is empty or a directory by then, and the disk holds exactly the others and the directories that any object needs |
| BackupRestore.ExportTells | deployments/compose/backup.py:744-779 | how an export ends, with the index that lists the files there are written in every outcome but a crash |
| BackupRestore.ExportIsComplete | deployments/compose/backup.py:744-779 | when an export succeeds, and when its files stand for the bucket: exactly when every key is the text of its path and not called objects.json |
| BackupRestore.Prevalidate | deployments/compose/restore.py:769-832 | pre-validation passes exactly when the directory exists and every indexed object is there with its digest |
| BackupRestore.RestoreObject | deployments/compose/restore.py:931-973 | one object, small files hashed in one piece and large ones in chunks, with the same result |
| BackupRestore.RestoreObjects | deployments/compose/restore.py:903-983 | the restore by index, or by scanning when there is no index |
| BackupRestore.RestoreAllAt | deployments/compose/restore.py:930-981 | a restore by index completes exactly when every entry is intact, and then what each key of the bucket holds |
| BackupRestore.RestoreOutcome | deployments/compose/restore.py:930-973 | however a restore by index goes, failed or crashed: each key holds the bytes of its file if an entry worked through has their digest, and what it held before if not, so nothing corrupt is uploaded; the failures counted are those of the missing and corrupt entries |
| BackupRestore.CrashesAtDirectories | deployments/compose/restore.py:930-946 | it crashes exactly when the path of some entry is a directory |
| BackupRestore.RestoreTells | deployments/compose/restore.py:903-928 | without the directory nothing happens, with a directory as index it crashes, and without entries every object file is uploaded under the text of its path and nothing else changes |
| BackupRestore.PrevalidationDecides | deployments/compose/restore.py:781-827 | on an unchanged directory with an index, restore records no failure exactly when pre-validation passed |
| BackupRestore.RestoreGivesFiles | deployments/compose/restore.py:916-981 | right after an export, pre-validation passes and restoring into an empty bucket gives the files under the texts of their paths |
| BackupRestore.RoundTrip | deployments/compose/backup.py:744-818 | export page by page, pre-validate, restore: the bucket comes back exactly when every key is portable |
| BackupRestore.DoubledSlashIsNotPortable | deployments/compose/backup.py:751-756 | no key with a doubled slash is portable |
| BackupRestore.OneObjectRestores | deployments/compose/backup.py:748-779 | the export of a single object whose key names a path is complete, pre-validation passes, and the restore puts it under the text of that path, whatever its key was |
| BackupRestore.DoubledSlashRestoresElsewhere | deployments/compose/backup.py:748-779 | an object under "a//b" is exported with success, passes pre-validation and is restored under "a/b" |
| DeptVisibility.DownIsBelow | migrations/versions/0064_dept_set_notnull.py:175-178 | the working-table evaluation of the downward query terminates by depth and returns exactly the departments and everything below them |
| DeptVisibility.UpIsAbove | migrations/versions/0064_dept_set_notnull.py:179-186 | the same for the upward query and the ancestors |
| DeptVisibility.VisibleIsSeen | migrations/versions/0064_dept_set_notnull.py:160-192 | the query returns exactly the user's departments, their descendants and their proper ancestors, in whatever order the table is scanned |
| DeptVisibility.QueryEndsExactly | migrations/versions/0064_dept_set_notnull.py:175-186 | both working tables become empty exactly when the chain of ancestors of each of the user's departments ends |
| DeptVisibility.UpEndsExactly | migrations/versions/0064_dept_set_notnull.py:179-186 | the upward table alone already needs that |
| DeptVisibility.AcyclicChainsEnd | migrations/versions/0064_dept_set_notnull.py:169-190 | in an acyclic table every chain ends |
| DeptVisibility.CycleNeverEnds | migrations/versions/0064_dept_set_notnull.py:175-178 | with a cycle through a department of the user the downward table is empty after no round |
| DeptVisibility.SightIsMutual | migrations/versions/0064_dept_set_notnull.py:169-190 | of two users with one department each, the query shows the first the other's exactly when it shows the other the first's |
| DeptVisibility.SightIsAUnion | migrations/versions/0064_dept_set_notnull.py:169-190 | the query for the union of memberships returns the union of what it returns for each part |
| DeptVisibility.RootSeesAll | migrations/versions/0071_enable_rls.py:49-63 | in a tree with one root a member of the root sees every department |
| DeptVisibility.RootQueryReturnsAll | migrations/versions/0071_enable_rls.py:49-63 | there the query returns exactly the whole table to a member of the root |
| DeptVisibility.ForeignKeyHolds | migrations/versions/0001_squashed_baseline.py:916 | parents exist throughout every run |
| DeptVisibility.AppliesExactly | migrations/versions/0065_dept_rls_switch.py:205-241 | a statement takes effect exactly when the trigger allows it and the table it leads to keeps every constraint; otherwise nothing changes |
| DeptVisibility.RunsKeepConstraints | migrations/versions/0062_dept_add_columns.py:136-144 | parents exist and codes are unique under one parent throughout every run |
| DeptVisibility.ProtectedFromOneStatement | migrations/versions/0065_dept_rls_switch.py:205-241 | no statement moves, disables or deletes a department exactly when its code is a sentinel's |
| DeptVisibility.SentinelStays | migrations/versions/0065_dept_rls_switch.py:205-241 | through any run that gives it no other code than a sentinel's, a sentinel department keeps its parent, its status and itself |
| DeptVisibility.ProtectedFromRuns | migrations/versions/0065_dept_rls_switch.py:205-241 | wherever a run has led, all such continuations leave the department where it is exactly when its code is a sentinel's now |
| DeptVisibility.TwoStatementsMoveAnything | migrations/versions/0065_dept_rls_switch.py:219-230 | without a restriction on codes two statements can move and disable any department |
| DeptVisibility.RootSeesAllThroughRuns | migrations/versions/0065_dept_rls_switch.py:205-241 | through any run that gives the root no other code than a sentinel's, whenever the table is acyclic with one root, a member of the root sees everything, whatever the tables in between |
| DeptVisibility.RewrittenCodeUnprotects | migrations/versions/0065_dept_rls_switch.py:219-230 | a run that first rewrites the root's code and then moves it, after which its member no longer sees all |
| DeptVisibility.NeverReprivatized | migrations/versions/0065_dept_rls_switch.py:171-187 | through any attempted updates a row keeps its owner, and is private at the end only if it was at every moment before |
| DeptVisibility.RewritesReachExactly | migrations/versions/0065_dept_rls_switch.py:171-187 | updates bring a row to exactly the states with its owner that are private only if it was |
| Showcase.Service.Add | packages/ai/showcase_service.py:112-193 | a block already pinned returns its card and changes nothing; a new one gets a card of its own |
| Showcase.Service.Delete | packages/ai/showcase_service.py:303-337 | the card is removed, or nothing is |
| Showcase.Service.Reorder | packages/ai/showcase_service.py:354-378 | the loop over the given identifiers |
| Showcase.ReorderedAt | packages/ai/showcase_service.py:369-378 | for an arbitrary list each named card of the conversation gets its last index; nothing else changes |
| Showcase.ReorderStaysDistinct | packages/ai/showcase_service.py:369-378 | after a reorder orders stay distinct exactly when no card left out has an order that the list gives away |
| Showcase.PartialReorderTies | packages/ai/showcase_service.py:369-378 | naming only the second of two cards leaves a tie |
| Showcase.OneListing | packages/ai/showcase_service.py:223-243 | with distinct orders there is one listing |
| Showcase.ListingAfterReorder | packages/ai/showcase_service.py:223-378 | listing after a reorder by a permutation gives exactly that order |
| Showcase.RunsStayDistinct | packages/ai/showcase_service.py:128-378 | over any run of additions, whole or as a read and a later insertion, deletions and complete reorders, the orders of a conversation are distinct at every point exactly when no insertion comes with an order given away since its read |
| Showcase.NoBlockIsPinnedTwice | migrations/versions/0001_squashed_baseline.py:884 | over every run, overlapping additions and partial reorders included, no block is pinned twice in a conversation |
| Showcase.AddIsReadThenInsert | packages/ai/showcase_service.py:128-176 | the read and the insertion of an addition, with nothing in between, are the addition |
| Showcase.OverlappingAdditionsTie | packages/ai/showcase_service.py:152-176 | from any state, two additions of new blocks that both read before either inserts end with the same order |
| Showcase.NewCardIsLast | packages/ai/showcase_service.py:152-175 | a card for a new block keeps its content and the first 200 characters of its title, comes after all others and leaves them as they were |
| Showcase.NewCardFollows | packages/ai/showcase_service.py:152-160 | its order is 0 in an empty showcase and otherwise the one after an order there is |
| Showcase.DeletedIsGone | packages/ai/showcase_service.py:303-337 | a deletion takes its card from the listing and leaves the others in their order |
| Showcase.AddedListsLast | packages/ai/showcase_service.py:152-175 | from any state a new card lists last, and pinning a pinned block changes nothing |
| Collaboration.Service.CreateConversation | packages/ai/conversation_service.py:71-90 | the creator gets an owner's row |
| Collaboration.Service.AddParticipant | packages/ai/collaboration_service.py:248-350 | which of the five refusals applies, in the code's order, or a member's row added |
| Collaboration.Service.RemoveParticipant | packages/ai/collaboration_service.py:376-426 | the refusals, or the row removed |
| Collaboration.Service.LeaveConversation | packages/ai/collaboration_service.py:446-473 | owners are refused, members leave |
| Collaboration.TabsInAnyState | packages/ai/collaboration_service.py:100-145 | in every state the private and collaborative tabs are disjoint and inside the department tab, and what it has beyond them is exactly the conversations of others in which the user is the only one left |
| Collaboration.StrandsNobodyExactly | packages/ai/collaboration_service.py:100-145 | from any reachable state: no continuation that spares the creator's row of a conversation strands anyone in it exactly when the creator has the owner's row, or nobody else is there and nobody else can be invited |
| Collaboration.TabsPartitionExactly | packages/ai/collaboration_service.py:100-145 | from any reachable state: every continuation that removes no creator keeps the private and collaborative tab a partition of the department tab exactly when every conversation is so |
| Collaboration.TabsPartition | packages/ai/collaboration_service.py:100-145 | from the start, over any run in which no creator's row is removed, the two tabs partition the third, before the row limit, and every creator keeps the owner's row |
| Collaboration.CreatorsStay | packages/ai/collaboration_service.py:453-468 | over a run that removes no creator, creators who all have an owner's row keep it |
| Collaboration.OnlyCreatorsManage | packages/ai/collaboration_service.py:272-413 | over every run only the creator of a conversation changes the seats of others in it |
| Collaboration.MembersWereInvitable | packages/ai/collaboration_service.py:297-327 | over every run each member is someone the creator may invite: of the same department, unless the creator is an administrator or has none |
| Collaboration.MembersShareDepartment | packages/ai/collaboration_service.py:297-327 | in plain terms: over every run a member has the creator's department, unless the creator is an administrator, unknown or without one |
| Collaboration.InvitableCanJoin | packages/ai/collaboration_service.py:272-350 | a creator without an administrator's role can add exactly the users of the same department, or anyone when the creator has none |
| Collaboration.RemovedCreatorStrandsMember | packages/ai/collaboration_service.py:388-421 | a run that leaves a member's conversation in neither tab |

## Left out

- ResearchTimeline.Tables.ExecuteAnalysisRun: does not model turn rows, turn results and error texts that the finalizer also writes, nor the return values of tasks, which can say succeeded after a rejected write.
- ResearchTimeline.InvStep: does not cover CandidateExtractionService.retry (packages/research/timeline/extraction_service.py:260), which returns a failed job to the queue and has no caller outside the tests.
- ResearchTimeline.StatusOnlyMovesForward: does not model the older orchestrator's writes to runs, such as its heartbeat check (apps/worker/research_tasks.py:249-273), nor the steps and slots that a cancellation also releases.
- ResearchTimeline.TwoQueriesAsOne: runs that turn stale between the two queries are left to the next pass, so the runs picked are all the stale ones of the first query, not of the second.
- TurnPlanning.Turn.GeneratePlan: does not model plan contents, nor what happens to a turn after its plan is confirmed.
- SqlReference.RoundTrip: the reference reads dollar quotes as the scanner does; ReadsAsTheManualExactly says when that is the reading of section 4.1.2.4 of the PostgreSQL manual.
- SqlSplitter.SplitSql: SQL string literals and comments are plain text here because the scanner does not recognise them; the character classes of isalnum and of whitespace are parameters, of which only that they exclude the dollar sign and the semicolon is used.
- ToolStream.ReadBody: JSON reading is a parameter; chunks of an unexpected shape, an index that is null, and logging are not modelled.
- ToolStream.ParseResponse: arguments given outright are taken to be objects; token usage and logging are not modelled.
- ToolLoop.ProcessOne: the three-way split of numeric tool results is one result text; what tools compute, citations and their signatures are parameters.
- ToolRegistry.Registry.ReloadFromDb: does not model the lookups and lists that only read, the order in which tools are listed, timestamps and the last editor.
- DirectoryDigest.DigestIdentifies: assumes an injective hash and reversible JSON text, which stand for SHA-256 and for `json.dumps`.
- DirectoryDigest.ComputeManifest2: recorded sizes are left out, since validation does not read them.
- BackupRestore.ExportObjects: keys that are not Contained lead elsewhere than to the path of their components (ContainedExactly) and are excluded, as is a server that reports a truncated page without a continuation token.
- BackupRestore.RestoreObjects: uploads succeed; failures of the object store during a restore are not modelled.
- DeptVisibility.VisibleIsSeen: the policies that use the set of visible departments are not modelled.
- Showcase.ListingAfterReorder: the listing query is a predicate on what it may return, not a method.
- Showcase.Service.Add: performs the read and the insertion as one step; they are apart in RunsStayDistinct. Access checks are a parameter; timestamps and data sources are not modelled.
- Collaboration.TabsPartition: the archive and keyword filters are a given set of conversations, the same for all tabs; row-level security, ordering and the row limit are not modelled.
- Encryption, archives, database dumps and point-in-time recovery around the backups are commands run by the service, with no property of their own here.
- Row-level policies of later migrations, outbox dispatch, worker leases and schedulers are not part of this model.
