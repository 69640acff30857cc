# Verified models of the LLMOps console

This project models the parts of the repository whose behaviour is hard to see by reading one function, and
proves what they promise. To check it with Dafny 4.11: `dafny verify dfyconfig.toml`.

Each group of files models one cluster of the repository:

- **The decision-model server** (`docker/decision/server.py`). `Registry.dfy` holds the registry object: its
  fields and, as methods, the blocks the server runs under its mutex. `RegistryProtocol.dfy` is the whole server as
  a transition system: any number of threads, one atomic step per mutex block and per acquire, recheck or release
  of a model's lock, with the loader, the predictor, the memory probe, path resolution and the file write succeeding
  or failing as they like. `RegistrySafety.dfy` proves the inductive invariant, `RegistryTheorems.dfy` draws the
  theorems about every run, `RegistryService.dfy` what callers get, `RegistryRecovery.dfy` the theorems about restarts,
  `RegistryEarlyCalls.dfy` those about admin calls during one.
- **The eval runners** (`decision-eval-runner.ts`, `vlm-eval-runner.ts`, `json-dir-store.ts`). `EvalPool.dfy` is
  a transition system in which every `await` is a scheduling point; `EvalRecord.dfy` is about what its runs store, and
  `VlmRun.dfy` joins it with the report.
- **Eval arithmetic** (`vlm-eval.ts`, `eval-stats.ts`, `decision-eval.ts`, `classification-eval.ts`):
  `EditDistance.dfy`, `VlmScoring.dfy`, `EvalStats.dfy`, `DecisionMetrics.dfy`, `DecisionCoverage.dfy`,
  `DecisionBrier.dfy`, `DecisionConfusion.dfy`, `Classification.dfy`, with `Reals.dfy` for products and quotients.
  JavaScript numbers are exact reals; a square root is a parameter that is non-negative and squares to the argument.
- **Parsers, printers and protocols** (`dataset-ingest.ts`, `host-runner.ts`, `export-server.py`): `Lines.dfy`,
  `Digits.dfy`, `DatasetIngest.dfy`, `HostCommand.dfy`, `LineProtocol.dfy`. The shell is a lexer for sections 2.2
  (quoting) and 2.3 (token recognition, with comments) of the POSIX Shell Command Language.
- **Dataset schemas** (`decision-schema.ts`, its Python twin `decision_schema.py`, `vlm-schema.ts`) and the eval that
  reads decision rows: `JsonValues.dfy`, `Entries.dfy`, `DecisionSchema.dfy`, `TwinText.dfy`,
  `DecisionSchemaTwin.dfy`, `TwinUsual.dfy`, `DecisionStore.dfy`, `DecisionTraining.dfy`, `DecisionEval.dfy`,
  `DecisionAnswers.dfy`, `VlmSchema.dfy`, `VlmStore.dfy`; `DecisionFormat.dfy` and `VlmFormat.dfy` prove that the checks accept
  the documented formats. `JSON.parse`, `JSON.stringify`, `String(v)`, `Number(s)`, `str(v)` and `float(s)` are parameters;
  where a result needs something of them (what was parsed is printed and parsed back, a string is written as it is) it
  says so, and `DecisionTraining.HostsExist` gives hosts that meet all of it.
- **Small algorithms** (`vision-limits.ts`, `rate-limit.ts`): `VisionLimits.dfy`, `RateLimit.dfy`.

## Where the code and its description differ

The code is modelled as it is. These promises hold only under a condition; the condition is proved to be the right one,
or a concrete input shows the failure.

- A failed restore is meant to stay in the state file (`docker/decision/server.py:165-166`), but a start-time model
  without a path is kept as a placeholder with an empty path, and `entries_from_disk` drops such an entry on the next boot.
  A boot brings back every remembered name if and only if every entry has a path.
- The admin API does not wait for `restore`. A load or unload that saves before it is through writes a file with every name
  nobody unloads if and only if each one still to be restored is in the dictionary already, or is the one being loaded; a
  server that dies after another such write has forgotten models. Once `restore` has saved, none is missing.
- A run that was deleted (`src/lib/json-dir-store.ts:63-71`) comes back when a save was past its existence check; it is gone
  for good if and only if none was.
- `buildCommand` puts the quoted arguments into a template with `String.replace`, which acts on `$$`, `$&`,
  `` $` `` and `$'`. The words come out right if and only if no `$` in an argument is followed by one of those
  characters or ends its argument.
- `hardStopAfterGrace` (`src/lib/finetune.ts:1303-1318`) builds its pattern from `$1`, but its script has no `"$@"`: the job id
  is appended behind the last word and `$1` is empty, so the pattern is that of every job.
- The export server's trailer is read as output when the child's last line is unfinished: a command that exits 0
  is then reported as failed. A command that failed can be reported as successful, when the stream breaks off at the right
  place, if and only if a line of its output or of its error message starts with `__RANTAI_EXIT__:0`; a refused command never.
- The rate limiter's sweep is meant to drop only what no longer counts. That holds if and only if no hit comes before the end
  of a window whose bucket was deleted, as a clock that is set back can make it.
- The rate limiter calls itself a sliding window (`src/lib/rate-limit.ts:2`). It is a fixed window from the first hit:
  `2 * max - 1` hits can pass within one window length, and that is the most.
- The upload check and the trainer's check are meant to reject the same rows (`src/lib/decision-schema.ts:4-7`). On usual rows
  they do: states and yes/no labels without a byte order mark or the separators 0x1C to 0x1F and 0x85, string choice labels,
  numbers and plain decimals, and a number for each option named like a member of `Object.prototype`. A row outside that
  class which one check accepts is accepted by the other if and only if its state and each of its gold values meet. The
  conditions are about the state, the label and the readings of the probabilities; a boolean choice label, a state blank for
  one language only, an option "constructor" without a number and a string that is a number to one language break them.
- A gold label that the validator accepts is scored or counted as unanswered by the eval if and only if its name is not that of a
  member of `Object.prototype` ("constructor"), its question has the type its name had first, and, for yes/no, it is a
  boolean, "true" or "false", or a probability that is a JSON number. Otherwise it is silently dropped.
- A yes/no probability may be given for either side (`src/lib/decision-schema.ts:13-14`). The eval reads the same label from both
  if and only if it is not one half. Any number is accepted as one, also outside 0..1.
- A failed request is not a wrong answer (`src/lib/vlm-eval-runner.ts:78-79`), unless its error has an empty message: the
  report has as many errors as the runner counted if and only if no failure is silent in this way.
- The confusion matrix of a question holds all decisions if and only if no true or predicted label is the name of a member of
  `Object.prototype`: such a row is written into the inherited member, and such a cell becomes a text.
- `calibration` throws on a negative confidence, which the answers of a choice question may contain; its error is
  bounded by 1 for confidences in [0, 1]. An answer may also choose a member of `Object.prototype`, which is in every
  record and has no number.

## Model

| member | source | states |
|---|---|---|
| DecisionRegistry.Registry.CountLoaded | docker/decision/server.py:176-177 | the number of registered models whose model is not None |
| DecisionRegistry.Registry.Save | docker/decision/server.py:196-210 | after a write that works the file is the entries of the dictionary in order; after one that fails it is what it was |
| DecisionRegistry.Registry.ReadFile | docker/decision/server.py:212-221 | the items with a name and a path, in file order; none of a missing or unreadable file; and it throws exactly on a JSON value that is no sequence |
| DecisionRegistry.WrittenIsReadBack | docker/decision/server.py:196-221 | a file the server wrote is read back as its entries with a path |
| DecisionRegistry.UsableIff | docker/decision/server.py:212-222 | an item of the file is read exactly if it is an object with a name and a path, neither of them empty |
| DecisionRegistry.Registry.TryReserve | docker/decision/server.py:233-239 | refuses a name that is loading or loaded and a load over the limit, and otherwise reserves exactly that name |
| DecisionRegistry.Registry.GiveBack | docker/decision/server.py:242-243 | gives one reservation back and changes nothing else |
| DecisionRegistry.Registry.Register | docker/decision/server.py:257-261 | ends the reservation, puts the object under its name and saves when asked to |
| DecisionRegistry.Registry.TryPop | docker/decision/server.py:264-271 | 409 while loading, 404 when absent, both without a change; otherwise the object leaves the dictionary and the file is saved |
| DecisionRegistry.Registry.KeepFailed | docker/decision/server.py:301-305 | a failed entry becomes a placeholder unless its name is taken |
| RegistrySafety.StepInv | docker/decision/server.py:224-309 | every step of every thread keeps the invariant: distinct names, capacity, reservations and loads one to one, locks held by one thread, saved file |
| RegistryTheorems.CapacityAlwaysHolds | docker/decision/server.py:233-239 | in every interleaving, loaded registered models and reservations together never exceed max_models |
| RegistryTheorems.ReservationsAreLoads | docker/decision/server.py:233-261 | a reserved name has exactly one load in flight and never maps to a loaded entry |
| RegistryTheorems.NoReservationLeaks | docker/decision/server.py:239-261 | the reserved names are exactly the names of loads in flight, so every way out of load gives its reservation back |
| RegistryTheorems.CommitReplacesNothingLoaded | docker/decision/server.py:257-261 | a commit replaces nothing or an unloaded placeholder, and turns one reservation into one loaded model |
| RegistryTheorems.ObjectStep | docker/decision/server.py:246-274 | an object gains its model only while its load owns it, loses it only after it was popped, and never comes back from that |
| RegistryTheorems.LoadednessIsStable | docker/decision/server.py:246-274 | whether an entry is loaded does not change while it is in the dictionary |
| RegistryTheorems.PredictionsAreSafe | docker/decision/server.py:420-432 | in every state of a prediction the model of its object is there and no other thread predicts with it. That requests are answered at all is RegistryService.ServedIsPredicted and RegistryService.RequestEndsRight |
| RegistryTheorems.RetiredForever | docker/decision/server.py:264-274 | an object that was popped and cleared stays out of the dictionary and without a model in every later state |
| RegistryTheorems.UnloadIsFinal | docker/decision/server.py:264-274 | after unload returns no prediction starts or goes on with that model, even for requests that had fetched it before |
| RegistryTheorems.NoDeadlock | docker/decision/server.py:272-273 | a thread in the middle of an operation can move, or waits for a lock whose holder can |
| RegistryTheorems.FileFollowsRegistry | docker/decision/server.py:257-271 | once ready, whenever the last write worked, the file is the entries of the registry |
| RegistryTheorems.LoadIsRemembered | docker/decision/server.py:257-262 | a load that returns and was saved is served and in the file with its settings |
| RegistryTheorems.UnloadIsForgotten | docker/decision/server.py:264-271 | a saved unload leaves the file without that name and with every other |
| RegistryService.ServedIsPredicted | docker/decision/server.py:416-428 | a request for a name that leads to a loaded object whose lock is free goes through all its steps and ends inside the predictor, on that object |
| RegistryService.RequestLeavesNoTrace | docker/decision/server.py:420-432 | when the predictor has returned and the lock is given back, the server is in the very state the request found it in |
| RegistryService.UnservedIsRefused | docker/decision/server.py:416-418 | a request for a name that leads to no loaded object is over at its look and has changed nothing |
| RegistryService.RequestEndsRight | docker/decision/server.py:416-432 | over every run: a fetched request goes on only with a model, and leaves without predicting only by its own timeout, or because its object has no model at its look or its recheck |
| RegistryService.LoadReservesIff | docker/decision/server.py:226-239 | a load makes its reservation if and only if name and settings are valid (256 to 65536 tokens), the path resolves, the name is neither loading nor loaded, and fewer than `max_models` are loaded or loading; otherwise the state stays as it was |
| RegistryService.NameOkIff | docker/decision/server.py:67 | a name passes if and only if it is 1 to 64 letters, digits, dots, underscores and hyphens, with at most one line feed behind |
| RegistryService.LoadSucceeds | docker/decision/server.py:224-262 | such a load, with enough memory and a working loader, ends with its model served under its name with its path and settings and no reservation left; every other name leads where it led, and the file describes the registry if the write worked |
| RegistryService.LoadedIsPredicted | docker/decision/server.py:224-428 | from the state such a load leaves, any other idle thread gets a prediction on an object with that path |
| RegistryService.RefusedLoadLeavesNoTrace | docker/decision/server.py:240-245 | a load that finds too little memory ends in the very state it started from |
| RegistryService.BrokenLoadLeavesNoTrace | docker/decision/server.py:246-257 | a load whose loader raises ends in that state but for one object nobody can reach |
| RegistryService.UnloadStartsIff | docker/decision/server.py:264-272 | an unload goes on if and only if the name is served and not loading, with the name gone and all others kept; otherwise the state stays as it was |
| RegistryService.UnloadSucceeds | docker/decision/server.py:264-274 | an unload of a served name whose object nobody holds ends with the name free, the model dropped, the lock free and every other name as it was |
| RegistryService.BootServes | docker/decision/server.py:287-296 | an entry that restore has not met, with a text path that resolves, valid settings and room for it, is served from that path when restore turns to the next entry; the file is not written |
| RegistryService.BootEnds | docker/decision/server.py:306-309 | with no entry left, restore writes the registry to the file and the server becomes ready |
| RegistryRecovery.BootRestores | docker/decision/server.py:280-309 | after a quiet boot the registry holds exactly the entries read from the file, in order, with their settings, whichever loads failed |
| RegistryRecovery.BootForgetsNothingIff | docker/decision/server.py:212-221 | a quiet boot brings back exactly the remembered names if and only if no entry has an empty path |
| RegistryRecovery.BootKeepsFile | docker/decision/server.py:196-210 | a boot on a file whose entries have paths, finished or killed, leaves a file with the same models and settings |
| RegistryRecovery.BadBootsForgetNothing | docker/decision/server.py:280-309 | after any number of such boots, whichever loads fail, the file still has the same models and settings |
| RegistryRecovery.PathfulStartsWritePaths | docker/decision/server.py:280-307 | started with pathful entries only, the file is in every reachable state the one it started on, or one in which every entry has its path |
| RegistryRecovery.PathlessModelIsForgotten | docker/decision/server.py:301-307 | a start-time model without a path is written with an empty one, and the next boot reads nothing back |
| RegistryEarlyCalls.NothingIsSkipped | docker/decision/server.py:280-307 | in every state of every run of a boot, each valid name among the entries that nobody unloads is in the dictionary or still to be restored |
| RegistryEarlyCalls.EarlyCommitForgetsNothingIff | docker/decision/server.py:257-261 | a written commit of an admin load at any moment of a boot saves all those names if and only if each one still to be restored is in the dictionary already or is the one that was loaded |
| RegistryEarlyCalls.EarlyUnloadForgetsNothingIff | docker/decision/server.py:264-271 | the same for a written unload and the names nobody unloads |
| RegistryEarlyCalls.SettledBootHasAll | docker/decision/server.py:306-307 | once restore has reached its own save, none of those names is missing, whatever was loaded meanwhile |
| RegistryEarlyCalls.EarlyLoadForgets | docker/decision/server.py:257-261 | a concrete run whose early commit writes a file without the model still to be restored |
| EvalPool.Board.Take | src/lib/decision-eval-runner.ts:39 | hands out the cursor and advances it by one |
| EvalPool.Board.Record | src/lib/vlm-eval-runner.ts:62-85 | stores the row's case and counts it as completed, and as right or failed, keeping the first error |
| EvalPool.StepInv | src/lib/decision-eval-runner.ts:37-55 | every step of every worker and of the caller keeps the pool's invariant |
| EvalPool.RowsAreTakenOnce | src/lib/decision-eval-runner.ts:37-58 | no row is taken twice, all are taken in the end, and at most min(concurrency, rows) distinct rows are in flight |
| EvalPool.PoolAgreesWithSequential | src/lib/vlm-eval-runner.ts:49-104 | under every schedule the cases are those of a sequential run, and the counters count its rows, failures and right answers |
| EvalPool.ProgressWritesComeFirst | src/lib/vlm-eval-runner.ts:86-104 | when the caller goes on, no worker has a save left to finish |
| EvalPool.StoredStatusEndsTerminal | src/lib/decision-eval-runner.ts:57-85 | once a write of the caller has gone through, the record is a final one over all rows in every later state, unless it is deleted. Which status it has is EvalRecord.StoredStatusIff |
| EvalRecord.StoredStatusIff | src/lib/decision-eval-runner.ts:57-85 | for every run from the start that ends with a successful write of the caller: the stored status is done if and only if the report was built, something was scored and no earlier write of the caller failed, and error otherwise; the counters are those of all rows, and the message that of the request that failed first |
| EvalRecord.NoFinalRecordOnlyIf | src/lib/decision-eval-runner.ts:60-85 | a run ends without a final record only if its record was gone when it was to be replaced, or if the one write after a report that threw, or else two writes, failed |
| EvalRecord.SampleIsFirstError | src/lib/decision-eval-runner.ts:44-49 | over every run, the message shown is that of the first request to fail, whatever order they end in |
| EvalRecord.StoredWasTrue | src/lib/decision-eval-runner.ts:51-54 | over every run, whatever record is stored or on its way to the store counts exactly the cases there were at some moment of the run |
| EvalRecord.SavesOwnRow | src/lib/decision-eval-runner.ts:41-54 | what a worker goes on to save counts the cases with its own row among them, as running |
| EvalRecord.StartedHasRecord | src/lib/decision-eval-runner.ts:51-54 | the record of a run that has started is there in every state of every run in which nobody deletes it |
| EvalRecord.RowIsSettled | src/lib/decision-eval-runner.ts:36-51 | a ready worker takes the next row, if there is one, and stores that row's own outcome as its case |
| EvalRecord.SaveGoesThrough | src/lib/decision-eval-runner.ts:52-54 | a save that finds the record and can write replaces it, and the worker is ready again |
| EvalRecord.FailedSaveIsHarmless | src/lib/decision-eval-runner.ts:52-54 | a save that finds no record or cannot write changes nothing, and the worker is ready again |
| EvalRecord.RunIsStored | src/lib/decision-eval-runner.ts:57-74 | once the workers are done and the writes work, the run is stored as done or in error, as it ended |
| EvalPool.DeletedStaysDeleted | src/lib/json-dir-store.ts:63-71 | a record deleted while no save is past its check never reappears |
| EvalPool.DeletedForGoodIff | src/lib/json-dir-store.ts:63-71 | a deleted record stays away in every run if and only if no save is past its check |
| EvalPool.ScheduleIsBounded | src/lib/decision-eval-runner.ts:37-58 | no schedule is longer than the work there is |
| EvalPool.NeverStuck | src/lib/decision-eval-runner.ts:57-85 | until the run is over some step is possible |
| VlmRun.ReportErrorsIff | src/lib/vlm-eval-runner.ts:49-104 | under every schedule the report has the right answers of the progress counters, and as many errors as they have if and only if no request failed with an empty message; it has nothing scored exactly when every request failed with a message |
| VlmRun.CasesKeepRows | src/lib/vlm-eval-runner.ts:47-82 | every row has its case in its place, with its own id and category, an error exactly if its request failed, and right exactly if it was answered right |
| VlmRun.SilentFailureIsScored | src/lib/vlm-eval.ts:248 | a request that failed with an empty message becomes a scored, wrong row |
| VlmRun.RunIsDoneIff | src/lib/vlm-eval-runner.ts:86-115 | with a report that is built and a first write that works, the rows decide the stored status: done if and only if some request was answered or failed without a message, error if and only if every request failed with one |
| EditDistance.DistIsLeastCost | src/lib/vlm-eval.ts:47-67 | the distance is the cost of some script of insertions, deletions and substitutions, and no script is cheaper |
| EditDistance.DistBounds | src/lib/vlm-eval.ts:47-67 | the distance lies between the difference and the larger of the lengths |
| EditDistance.DistZeroIffEqual | src/lib/vlm-eval.ts:47-67 | the distance is zero exactly for equal texts |
| EditDistance.DistSymmetric | src/lib/vlm-eval.ts:54-55 | swapping the texts changes nothing, so the shorter may go inside |
| EditDistance.DistTriangle | src/lib/vlm-eval.ts:47-67 | the triangle inequality, by composing scripts |
| EditDistance.NextRow | src/lib/vlm-eval.ts:58-65 | the inner loop turns the row of one prefix into the row of the next |
| EditDistance.TwoRows | src/lib/vlm-eval.ts:56-66 | two rows swapped in place end with the distance |
| EditDistance.Levenshtein | src/lib/vlm-eval.ts:48-67 | the whole function returns the least number of edits |
| VlmScoring.LatexRightIffNoErrors | src/lib/vlm-eval.ts:144-148 | in LaTeX mode an answer is right exactly when its character error rate is 0 |
| VlmScoring.AnlsRange | src/lib/vlm-eval.ts:157-164 | an ANLS score is 0 or above 0.5 and at most 1, is 1 exactly for equal normalised texts, and the answer is right exactly when fewer than half of the longer text's characters must change |
| VlmScoring.ScoreRange | src/lib/vlm-eval.ts:140-172 | in every mode the score lies in 0..1, it is positive exactly when the answer is right, and only ANLS has values between. When an answer is right is VlmScoring.RightIff |
| VlmScoring.RightIff | src/lib/vlm-eval.ts:140-171 | when an answer is right, by mode: exact if and only if the normal forms are equal; LaTeX likewise; numeric with two numbers if and only if the answer lies within 5% (plus 1e-12) of a positive or negative key and is zero for a zero key, otherwise as exact; choice if and only if both read as the same letter, as exact when the key reads as none; ANLS if and only if less than half of the longer text is edited |
| VlmScoring.AnlsIsShare | src/lib/vlm-eval.ts:157-164 | a right ANLS answer scores the share of the longer text that needs no edit |
| VlmScoring.RateIsShare | src/lib/vlm-eval.ts:144-148 | the character error rate times the length of the key is the number of edits |
| VlmScoring.SameFormScoresAlike | src/lib/vlm-eval.ts:140-171 | outside ANLS and numeric, two answers with the same normal form and the same letter get the same verdict and score |
| VlmScoring.KeyScoresItself | src/lib/vlm-eval.ts:140-172 | the key itself is always right |
| VlmScoring.GroupByCategory | src/lib/vlm-eval.ts:279-284 | no groups unless some scored row has a category; otherwise one per category that occurs, each with its scored rows in order |
| VlmScoring.CategoriesAddUp | src/lib/vlm-eval.ts:279-299 | the categories' rows and right answers add up to the report's |
| VlmScoring.DeltaIsImprovedLessRegressed | src/lib/vlm-eval.ts:328-360 | the gap in right answers between two runs is the improved rows less the regressed ones |
| VlmScoring.ComparedIsLikeForLike | src/lib/vlm-eval.ts:328-360 | the compared pairs are exactly the rows both runs scored, matched by id |
| EvalStats.WilsonIsScoreInterval | src/lib/eval-stats.ts:39-47 | a rate lies in the interval if and only if n(p-q)^2 <= z^2 q(1-q) |
| EvalStats.ClampsAreIdle | src/lib/eval-stats.ts:39-47 | neither clamp ever acts, and the interval encloses the observed rate within [0, 1] |
| EvalStats.WilsonMirrors | src/lib/eval-stats.ts:39-47 | the interval of the misses is the mirror image |
| EvalStats.WilsonIsNeverCertain | src/lib/eval-stats.ts:31-47 | the interval has a positive width even at 0% and 100% |
| EvalStats.StderrIsPositive | src/lib/vlm-eval.ts:235-245 | the standard error of a non-empty sample is positive, also at 0% and 100% |
| EvalStats.StderrOfCounts | src/lib/vlm-eval.ts:235-245 | the squared error as a fraction of whole counts: of hits and misses, or, where one is missing, of both with two more of each |
| EvalStats.StderrMirrors | src/lib/vlm-eval.ts:235-245 | the rate of the misses has the same error as that of the hits |
| EvalStats.CompareFlips | src/lib/eval-stats.ts:65-76 | swapping the two scores flips the verdict and the sign of the gap |
| EvalStats.TieIff | src/lib/eval-stats.ts:65-76 | a tie is a gap whose square is within z^2 times the two variances |
| EvalStats.VerdictIff | src/lib/eval-stats.ts:65-76 | better if and only if the score is higher and the squared gap exceeds z^2 times the two variances, worse if and only if it is lower by as much, unknown if and only if an error is missing; the gap is the difference |
| EvalStats.ScoreIntervalHoldsScore | src/lib/eval-stats.ts:26-29 | the interval exists exactly with a positive error and then encloses the score within [0, 1] |
| EvalStats.ScoreIntervalIff | src/lib/eval-stats.ts:26-29 | the interval of a rate holds exactly the rates within 1.96 errors of it |
| DecisionMetrics.BinBounds | src/lib/decision-eval.ts:276-278 | a bin holds the confidences from its lower bound up to its upper, the last one also those above |
| DecisionMetrics.FillBins | src/lib/decision-eval.ts:277-282 | every bin gets the count, confidence and hits of its own points; a negative confidence throws |
| DecisionMetrics.Calibration | src/lib/decision-eval.ts:275-292 | the reported bins give count and means of their points, and the error is the points' share of the gaps |
| DecisionMetrics.BinsPartition | src/lib/decision-eval.ts:277-282 | counts, confidences and hits of the bins add up to those of all points |
| DecisionMetrics.EceBounds | src/lib/decision-eval.ts:275-292 | for confidences in [0, 1], the gap between accuracy and mean confidence <= ECE <= 1 |
| DecisionBrier.Score | src/lib/decision-eval.ts:297-302 | the squared distance from the one-hot truth, with a missing label counted as probability 0 |
| DecisionBrier.BrierOf | src/lib/decision-eval.ts:295-304 | the mean of the decisions' scores, 0 for none |
| DecisionBrier.BrierBounds | src/lib/decision-eval.ts:294-304 | for a distribution the score lies between the square of the probability denied to the truth and twice it, and is 0 exactly when the truth got all |
| DecisionBrier.BrierRange | src/lib/decision-eval.ts:294-304 | 0 best, 2 worst, for any number of options and decisions |
| DecisionCoverage.CoverageAtAccuracy | src/lib/decision-eval.ts:350-361 | the largest share over all thresholds whose kept decisions reach the target accuracy, null exactly when no threshold does |
| DecisionCoverage.OrderDoesNotMatter | src/lib/decision-eval.ts:350-361 | the result does not depend on the order of the decisions or on ties |
| DecisionCoverage.StricterCoversLess | src/lib/decision-eval.ts:395-397 | a stricter target never covers more |
| DecisionCoverage.Automate | src/lib/decision-eval.ts:391-394 | count, coverage and accuracy of the decisions at or above a threshold |
| DecisionCoverage.CurveStaysBelowBest | src/lib/decision-eval.ts:391-397 | a point of the automation curve with decisions at the target accuracy never covers more than the reported best |
| DecisionCoverage.CurveFalls | src/lib/decision-eval.ts:391-394 | a higher threshold never keeps more decisions |
| DecisionConfusion.BuildConfusion | src/lib/decision-eval.ts:328-332 | the loop gives the matrix: the points added one by one |
| DecisionConfusion.HitsAreRight | src/lib/decision-eval.ts:335 | the hits of a label are the decisions it names twice, whatever other labels there are |
| DecisionConfusion.SupportIsRightIff | src/lib/decision-eval.ts:336 | a support is the number of decisions with that true label if and only if none of them was predicted as a member of `Object.prototype` |
| DecisionConfusion.PredictedIsRightIff | src/lib/decision-eval.ts:337 | a column counts all decisions predicted so if and only if none of them has such a name as its true label |
| DecisionConfusion.MatrixHoldsAllIff | src/lib/decision-eval.ts:328-332 | the matrix holds every decision if and only if no true or predicted label is such a name |
| Classification.Tabulate | src/lib/classification-eval.ts:99-115 | every cell, support and the unknown count are the numbers of cases they stand for |
| Classification.BuildClassificationReport | src/lib/classification-eval.ts:98-157 | the report is the statistics of the counted cells, with the means over the classes |
| Classification.RowIsSupport | src/lib/classification-eval.ts:105-115 | a row of the matrix and the misses of its class add up to the class's support |
| Classification.MatrixAccounts | src/lib/classification-eval.ts:105-115 | all cells and the unknown count add up to the cases whose expected label is in the set |
| Classification.CountsByLabel | src/lib/classification-eval.ts:99-115 | with distinct labels, a cell counts the cases of one true and one predicted label, and a support those of one true label |
| Classification.DiagonalIsHits | src/lib/classification-eval.ts:117-120 | the hits behind the accuracy are the cases of the set whose predicted label is the expected one, whether or not labels repeat |
| Classification.StatsBounds | src/lib/classification-eval.ts:128-143 | precision, recall and F1 lie in [0, 1], F1 is 2tp/(2tp+fp+fn) and lies between precision and recall |
| Classification.StatsByLabel | src/lib/classification-eval.ts:128-140 | with distinct labels: precision times the rated cases a label was predicted for, and recall times its own cases, both give the cases where it was predicted right; the support is the number of its cases |
| Classification.ColumnIsPredicted | src/lib/classification-eval.ts:130-131 | a column of the matrix adds up to the rated cases for which its label was predicted |
| Classification.AccuracyIsWeightedRecall | src/lib/classification-eval.ts:117-143 | when every expected label is in the set, accuracy is the recall weighted by support |
| Lines.ReadOfJoin | src/lib/decision-schema.ts:78-92 | reading back kept lines that were joined gives exactly those lines |
| Lines.FilterTwice | src/lib/vlm-schema.ts:262-275 | storing the lines a test keeps and filtering again keeps them all |
| DatasetIngest.ParseCsv | src/lib/dataset-ingest.ts:22-58 | the loop, with its lookahead for doubled quotes, gives the rows of the automaton, or the error |
| DatasetIngest.RefusesOddQuotes | src/lib/dataset-ingest.ts:47-51 | it throws exactly when the text has an odd number of double quotes |
| DatasetIngest.ParseOfPrint | src/lib/dataset-ingest.ts:21-58 | reading a printed table, however quoted and with either line end, gives its rows less those that are one empty field |
| DatasetIngest.RoundTripIff | src/lib/dataset-ingest.ts:21-58 | the table comes back unchanged if and only if no row is the single empty field |
| DatasetIngest.ObjectsOfPrint | src/lib/dataset-ingest.ts:60-82 | a printed table with a usable header becomes one object per data row, short rows filled up with empty text |
| DatasetIngest.RefusedIff | src/lib/dataset-ingest.ts:61-82 | which parsed tables are refused, with which error: no data row, an empty header, equal headers, or a row wider than the header, with the number of the first one; all others are accepted |
| HostCommand.ArgsSurviveTheShell | src/lib/host-runner.ts:33-36 | the shell reads the quoted, joined arguments as exactly the arguments, with nothing left for it to act on |
| HostCommand.AppendedArgsAreExact | src/lib/host-runner.ts:86-91 | behind a script that ends outside quotes and comments, appended arguments are exactly the words that follow its own, line ends among them |
| HostCommand.AppendedBehindLineEnd | src/lib/host-runner.ts:86-91 | behind a script that ends in a line end, the arguments are words of a command of their own |
| HostCommand.CommentSwallowsArgs | src/lib/host-runner.ts:86-91 | behind a script that ends in a comment, appended arguments of one line are lost |
| HostCommand.ArgumentsNeverBind | src/lib/finetune.ts:1303-1318 | appended arguments are never `$1` or a later parameter to the script: these are empty, and what the shell acts on is the script alone |
| HostCommand.LiteralSubstitution | src/lib/host-runner.ts:86-91 | put into the template literally, the quoted arguments would be read as the shell reads its own `"$@"`, also inside a word |
| HostCommand.PlaceOnItsOwn | src/lib/host-runner.ts:86-91 | a placeholder on its own means exactly the arguments between the script's own words |
| HostCommand.InertArgsAreExact | src/lib/host-runner.ts:86-91 | arguments without an active or final dollar sign are read so in any template |
| HostCommand.TemplateArgsAreExactIff | src/lib/host-runner.ts:86-91 | on the template path the words are those the placeholder means if and only if no argument has an active or final dollar sign |
| HostCommand.TrailingDollarIsLost | src/lib/host-runner.ts:86-91 | the argument `a$` arrives damaged |
| LineProtocol.LineReader.Feed | src/lib/host-runner.ts:129-136 | after each chunk the lines handed on are those of the text up to its last line end |
| LineProtocol.LineReader.Close | src/lib/host-runner.ts:138 | the unfinished last line is handed on too |
| LineProtocol.ReadChunks | src/lib/host-runner.ts:206-229 | however the output is cut into chunks, the lines are the non-blank trimmed pieces of the whole text |
| LineProtocol.Handle | src/lib/host-runner.ts:119-125 | trailer-shaped lines set the code, the last one counts, and all other lines are handed on |
| LineProtocol.DoPost | docker/backend/export-server.py:47-69 | the client receives the notice and code 126, or the output and the trailer, up to the write that failed |
| LineProtocol.WholeStreamIff | src/lib/host-runner.ts:119-152 | when the whole stream arrives, the client resolves by the code behind finished lines, and otherwise only by a trailer the child printed |
| LineProtocol.ResolvesIff | src/lib/host-runner.ts:119-152 | for output without a trailer-shaped line, the client resolves if and only if the code is 0 and the output's last line is finished or blank |
| LineProtocol.UnfinishedLineFails | src/lib/host-runner.ts:119-152 | the output `x` with code 0 is reported as failed |
| LineProtocol.CutStreamIff | src/lib/host-runner.ts:119-152 | some cut of the stream resolves if and only if an output line starts with the trailer of code 0, or the code is 0 behind finished lines |
| LineProtocol.LookalikeResolves | src/lib/host-runner.ts:119-152 | output `__RANTAI_EXIT__:0x` of a command that exits 5 is harmless as a whole and resolves when cut |
| LineProtocol.FailureResolvesIff | docker/backend/export-server.py:47-69 | end to end, a refused, failed or broken command can resolve on a cut stream if and only if it was allowed and a line of its output or error starts with the trailer of code 0 |
| LineProtocol.ResolvedMeansSucceeded | docker/backend/export-server.py:47-69 | when no line starts so, a client that resolves saw an allowed command exit 0, however many writes arrive |
| LineProtocol.SucceededMeansResolved | docker/backend/export-server.py:52-69 | end to end, an allowed command that exits 0 resolves exactly when its last line is finished or blank, or a trailer it printed says 0 |
| RateLimit.SweepShowsIff | src/lib/rate-limit.ts:16-52 | whatever the clock does, the answers are those of a limiter that never deletes a bucket, for every choice of limits, if and only if no hit comes before the end of a window whose bucket was deleted |
| RateLimit.SweepIsUnobservable | src/lib/rate-limit.ts:16-22 | while no hit is earlier than the last sweep, every answer is that of a limiter that never deletes a bucket |
| RateLimit.OrderedIsNotBefore | src/lib/rate-limit.ts:16-22 | a clock that never goes back keeps to that |
| RateLimit.BackwardClockIsObservable | src/lib/rate-limit.ts:16-22 | with a clock that goes back the two can differ |
| RateLimit.AtMostTwoWindows | src/lib/rate-limit.ts:34-52 | any interval as long as the window holds at most 2*max-1 allowed hits of a key |
| RateLimit.RetryAfterIsExact | src/lib/rate-limit.ts:38-52 | a hit is refused if and only if its window is open and full; the wait it is told is at least a second and the fewest whole seconds after which the window is over |
| RateLimit.TwoWindowsAreReached | src/lib/rate-limit.ts:34-52 | and some run reaches that number |
| RateLimit.Store.SweepExpired | src/lib/rate-limit.ts:16-22 | at most once a minute, removes exactly the expired buckets |
| RateLimit.Store.Limit | src/lib/rate-limit.ts:34-52 | one hit on the module's map gives the answer and the map of the specification |
| VisionLimits.PlanBatches | src/lib/vision-limits.ts:68-84 | the batches joined are the items, none is empty, each fits or is one item, and each was full when it was closed |
| VisionLimits.GreedyIsFewest | src/lib/vision-limits.ts:68-84 | no plan that keeps the order and the rule has fewer batches |
| DecisionSchema.GoldError | src/lib/decision-schema.ts:151-193 | usable probabilities are accepted first, then the label, and the first problem is reported |
| DecisionSchema.ValidateDecisionRow | src/lib/decision-schema.ts:195-241 | no problem if and only if the row meets the rule. Which problems: each kind is reported exactly when its condition holds, and of the questions exactly those with a problem, each with its own |
| DecisionSchema.ValidIsNormal | src/lib/decision-schema.ts:52-55 | normalising a valid normalised row again changes nothing |
| DecisionFormat.QuestionFormatIff | src/lib/decision-schema.ts:9-19 | a question passes if and only if it has one of the documented forms: yes/no with texts for its sides at most, 2 to 255 different options as a list or an object, or 2 to 10 levels |
| DecisionFormat.OptionsAreThese | src/lib/decision-schema.ts:94-108 | the options are the listed texts, the ids of the object, or the levels counted from zero |
| DecisionFormat.ScoreLevelIff | src/lib/decision-schema.ts:176-191 | a whole number is accepted as the label of a score if and only if it is one of the levels |
| DecisionFormat.ScoreTextIff | src/lib/decision-schema.ts:176-181 | a text is judged as the number it reads as, and refused when it reads as none |
| DecisionFormat.ScoreLevelIsFound | src/lib/decision-eval.ts:140-144 | the eval finds that level as the label |
| DecisionFormat.ChoiceLabelIff | src/lib/decision-schema.ts:185-191 | a text is accepted as the label of a choice if and only if it is one of the options, and the eval finds it as the label |
| DecisionFormat.YesNoLabel | src/lib/decision-schema.ts:183-191 | a boolean is accepted for a yes/no question, and the eval finds it as the label |
| DecisionFormat.ProbabilitiesIff | src/lib/decision-schema.ts:158-172 | plain numbers under distinct names, with no label, are accepted if and only if one of the options has a positive one |
| DecisionFormat.AnyYesNoNumberPasses | src/lib/decision-schema.ts:155-172 | a number for yes alone is accepted whatever it is, since one of the two sides is positive |
| DecisionFormat.RowFormatIff | src/lib/decision-schema.ts:196-242 | a row passes if and only if it has a state, 1 to 64 documented questions, and a gold that labels some of them and nothing else, each label without a problem |
| DecisionFormat.StateIsMissingIff | src/lib/decision-schema.ts:198-206 | a state is missing if and only if it is absent, null, an empty list or object, or a text of white space |
| DecisionFormat.StringifiedIsRead | trainers/unsloth-decision-train/decision_schema.py:122-145 | questions and gold stored as JSON text are read back alike by both languages, under either name of the gold, and all other columns are dropped |
| DecisionFormat.AnswersIsAnAlias | src/lib/decision-schema.ts:54 | `answers` is read where there is no `gold`, and not where there is |
| DecisionStore.ValidDecisionJsonl | src/lib/decision-schema.ts:73-92 | the stored text is the valid rows, normalised, in order |
| DecisionStore.ValidateDecisionJsonl | src/lib/decision-schema.ts:258-306 | the report counts the lines, describes the first bad ones by their file line and leaves none before the last of them out, and shows the most common labels of the valid rows |
| DecisionStore.TableBalanced | src/lib/decision-schema.ts:283-296 | a question has one entry, and its label counts add up to the rows that count for it, in the upload's table and in the job's |
| DecisionStore.ByCountSorts | src/lib/decision-schema.ts:303 | the labels are sorted by falling count, and those of one count keep the order in which they were first seen |
| DecisionStore.MostCommonAreShown | src/lib/decision-schema.ts:299-305 | at most twelve labels are chosen, none less common than one left out, and chosen and left out counts add up |
| DecisionStore.StoredIsValid | src/lib/decision-schema.ts:73-92 | the stored text has exactly the reported valid rows, no invalid one, the same label table, and storing it again changes nothing |
| DecisionStore.StoredStaysUsable | src/lib/decision-schema.ts:316-334 | a dataset that was usable when uploaded is usable as stored |
| DecisionStore.NoProblemIff | src/lib/decision-schema.ts:316-333 | a report has no problem if and only if there is a row, the valid ones reach the minimum, and at most one row in fifty is invalid; each other case has its own problem |
| DecisionStore.TableCountsLabels | src/lib/decision-schema.ts:281-297 | for every question and every label, the table counts exactly the occurrences of the question in the valid rows whose gold counts under that label |
| DecisionStore.BestKeyIsBest | src/lib/decision-schema.ts:290-293 | a row labelled by probabilities counts under the first of its highest |
| DecisionStore.ShownIff | src/lib/decision-schema.ts:299-305 | the report shows the summaries of all names but `__proto__`, each with its most common labels |
| DecisionSchemaTwin.ValidateRow | trainers/unsloth-decision-train/decision_schema.py:148-187 | no problem if and only if the row meets the rule of the trainer. Which problems: each kind is reported exactly when its condition holds, and of the questions exactly those with a problem, each with its own |
| DecisionSchemaTwin.QuestionProblemsAgree | trainers/unsloth-decision-train/decision_schema.py:58-75 | both check a question's type and criteria alike |
| DecisionSchemaTwin.StatesAgreeIff | trainers/unsloth-decision-train/decision_schema.py:153-155 | a state is judged alike unless it is all white space to one language with a character that is none to the other |
| TwinText.SameStrip | trainers/unsloth-decision-train/decision_schema.py:113 | text without a byte order mark and without the separators 0x1C to 0x1F and 0x85 is trimmed alike |
| TwinText.JsYesNoIff | src/lib/decision-schema.ts:184 | JavaScript reads yes or no exactly where the word stands in white space of either language without a separator |
| TwinText.PyYesNoIff | trainers/unsloth-decision-train/decision_schema.py:113 | Python does exactly where it stands in such white space without a byte order mark |
| DecisionSchemaTwin.YesNoStringsMeetIff | trainers/unsloth-decision-train/decision_schema.py:112-118 | a yes/no string is judged alike unless it is the word in white space with mark or separator, but not both |
| DecisionSchemaTwin.LabelsMeetIff | trainers/unsloth-decision-train/decision_schema.py:101-118 | a label of any question is judged alike if and only if it meets, by the kind of the question and of the JSON value |
| DecisionSchemaTwin.GoldsAgreeIff | trainers/unsloth-decision-train/decision_schema.py:78-118 | a gold value is judged alike if and only if it meets, case by case by which of its probabilities each side reads |
| TwinUsual.UsualGoldMeets | src/lib/decision-schema.ts:151-193 | strings for a choice, booleans and plain strings for yes/no, numbers and plain decimals for a score and as probabilities are judged alike |
| TwinUsual.UsualRowMeets | src/lib/decision-schema.ts:195-241 | a row of such gold values meets in all its parts |
| TwinUsual.TwinsAgreeOnUsualRows | src/lib/decision-schema.ts:4-7 | so the two checks accept the same of them |
| DecisionSchemaTwin.TwinsAgreeIff | trainers/unsloth-decision-train/decision_schema.py:148-187 | a row one check accepts is accepted by the other if and only if its state and all its questions meet |
| DecisionSchemaTwin.TwinsDisagree | trainers/unsloth-decision-train/decision_schema.py:112-118 | a boolean choice label and a state blank to one language are accepted by one side only |
| DecisionSchemaTwin.InheritedOptionDisagrees | src/lib/decision-schema.ts:170-171 | an option "constructor" without a number makes the weight NaN: the upload refuses what the trainer accepts |
| DecisionSchemaTwin.StringNumberDisagrees | trainers/unsloth-decision-train/decision_schema.py:88-92 | a probability written as a string that only Python reads as a number is refused by the upload only |
| DecisionTraining.ValidateRows | trainers/unsloth-decision-train/decision_schema.py:233-273 | the valid rows in order, how many are not, the numbers of the first of these, and the most common labels of each question |
| DecisionTraining.CheckedRows | trainers/unsloth-decision-train/train.py:223-394 | rows are returned if and only if at most one in fifty is invalid and at least twenty are valid, and they are exactly the valid ones, normalised |
| DecisionTraining.AcceptedUploadTrains | trainers/unsloth-decision-train/train.py:223-394 | a dataset the upload accepts reaches the job with all of its valid rows; the job keeps exactly those whose parts meet, trains on them if they are at least twenty and leave out at most one in fifty, and fails otherwise; when all parts meet it trains on all rows |
| DecisionTraining.UsualUploadTrains | trainers/unsloth-decision-train/train.py:223-394 | for an accepted upload of usual rows, the rows the job trains on are all of them |
| DecisionTraining.BestKeysAgree | trainers/unsloth-decision-train/decision_schema.py:257-262 | of probabilities that are plain numbers, both summaries count the row under the same key |
| DecisionTraining.HostsExist | src/lib/decision-schema.ts:73-92 | the hypotheses on JSON, String, Number, str and float can be met, with a line that holds a valid and usual row |
| DecisionEval.GoldLabel | src/lib/decision-eval.ts:127-158 | the label, or the option with the highest probability |
| DecisionEval.BestIsBest | src/lib/decision-eval.ts:145-155 | the option found has the highest number of all that have one, and none is found only when none has |
| DecisionEval.BestIsFirst | src/lib/decision-eval.ts:145-155 | of options with the same number the first is taken |
| DecisionEval.NoulLabelIff | src/lib/decision-eval.ts:130-139 | which side a yes/no gold is on: what it says outright, else whether the first number it gives is at least one half |
| DecisionEval.FormsAgreeIff | src/lib/decision-eval.ts:135-137 | a probability of yes gets the same label as `noul`, under "true" and under "false" if and only if it is not one half |
| DecisionEval.AcceptedHasLabelIff | src/lib/decision-eval.ts:127-158 | an accepted gold value always has a label for choice and score, whatever options other rows add, and for yes/no exactly in the forms that are read |
| DecisionEval.TextProbabilityHasNoLabel | src/lib/decision-eval.ts:135-138 | a yes/no probability written as text is accepted and has no label |
| DecisionEval.ParseDecisionEvalSet | src/lib/decision-eval.ts:165-197 | the kept rows are exactly the valid ones, with types and options collected over them in order |
| DecisionEval.RowsAreKnown | src/lib/decision-eval.ts:182-188 | every question of every kept row is known, and all its options too when its type is the first one seen |
| DecisionAnswers.ExtractPrediction | src/lib/decision-eval.ts:203-230 | the answer's label and probabilities, or nothing usable |
| DecisionAnswers.PredictionHasItsLabelIff | src/lib/decision-eval.ts:218-230 | the chosen label and each option have a probability if and only if the answer gives one or the name is not inherited |
| DecisionAnswers.InheritedAnswerHasNoConfidence | src/lib/decision-eval.ts:221-225 | an answer that chooses "constructor" is read with that label and no number for a confidence |
| DecisionAnswers.NoulIsDistribution | src/lib/decision-eval.ts:208-215 | a yes/no answer is always a distribution, and its label is the likelier side |
| DecisionAnswers.ScoreDecisionCase | src/lib/decision-eval.ts:235-264 | the results fit the gold labels that have one, in their order: a label has one if and only if its question is in the row under the type its name had first and both its label and the answer are readable. Each has the name, the true label, the predicted label and the probabilities of its question, counts as right if and only if the two labels are equal, and gives the numbers of both. `unanswered` is the number of labels that only lack an answer |
| DecisionAnswers.AnswerIsRead | src/lib/decision-eval.ts:217-231 | an answer to a choice or score is read if and only if it gives some number; all its numbers are kept as they are, every other option reads as zero, and the label is the one it names if that is among them, else the first of the highest |
| DecisionAnswers.YesNoIsRead | src/lib/decision-eval.ts:208-216 | an answer to a yes/no question is read if and only if `noul`, or else the probability of "true", is a number; that number cut to 0..1 is the probability of yes, the rest to one that of no, and the label is yes from one half on |
| DecisionAnswers.NumberAtIs | src/lib/decision-eval.ts:257-258 | the number read under a label is one the record has under that key, else zero, and none exactly where an inherited member is read |
| DecisionAnswers.NoLabelVanishesIff | src/lib/decision-eval.ts:235-264 | for every row of a parsed set, results and unanswered add up to the gold labels if and only if every label is found |
| DecisionAnswers.NegativeConfidence | src/lib/decision-eval.ts:216-230 | an answer that names an option of probability -0.2 is read with that confidence, and calibration refuses such a point |
| DecisionAnswers.InheritedNameVanishes | src/lib/decision-eval.ts:184-188 | a valid row whose question is named "constructor" has no result and nothing unanswered |
| VlmSchema.NormalizeImagePath | src/lib/vlm-schema.ts:77-82 | the loop removes leading "./" as the specification does |
| VlmSchema.PathOfShape | src/lib/vlm-schema.ts:77-82 | no leading "./" is left, doing it again changes nothing, and only a prefix was removed |
| VlmSchema.CheckPart | src/lib/vlm-schema.ts:124-154 | a part passes exactly when it meets the rule, counts as an image, and is collected under its path or as its URL |
| VlmSchema.CheckMessage | src/lib/vlm-schema.ts:110-155 | a message passes exactly when it meets the rule, and the reason names its first bad part |
| VlmSchema.CheckRow | src/lib/vlm-schema.ts:97-165 | no reason if and only if the row meets the rule; otherwise the first message and part that is wrong, or, when all are right, exactly the first of the conditions on the whole row that fails; and the references the check collects |
| VlmSchema.OkRowHasItsImages | src/lib/vlm-schema.ts:145-153 | a row that passes points at no missing image |
| VlmFormat.PlainChatIff | src/lib/vlm-schema.ts:97-165 | a chat of plain texts passes, whatever the options, if and only if it is not empty, every role is known, some turn is the user's, and the last is the assistant's and not blank |
| VlmFormat.TextIsOnePart | src/lib/vlm-schema.ts:116-127 | a row passes with a text as the content of a message if and only if it passes with that text as its only part |
| VlmFormat.OneMoreImageIff | src/lib/vlm-schema.ts:120-158 | one more image part, in either form, in a message that has parts: the row passes if and only if it passed before, the role is not the assistant's, the reference is usable and, if it is a path, found, and the row then has at most 4 images, or as many as the caller allows |
| VlmFormat.NoColonIsLocal | src/lib/vlm-schema.ts:85 | a reference without a colon is a path in the dataset |
| VlmStore.MarkIsIdle | src/lib/vlm-schema.ts:209-211 | removing a byte order mark changes nothing that is read |
| VlmStore.ValidateVlmJsonl | src/lib/vlm-schema.ts:196-233 | the report counts the lines, lists the first bad ones and leaves none before the last of them out, and collects the referenced, missing and external images |
| VlmStore.ValidVlmLines | src/lib/vlm-schema.ts:262-275 | the stored text is the lines that pass, as written |
| VlmStore.StoredIsValid | src/lib/vlm-schema.ts:257-275 | the stored text has exactly the reported valid rows, no invalid one, no missing image and no new reference or URL |
| VlmStore.StoredStaysUsable | src/lib/vlm-schema.ts:239-255 | a dataset that was usable when uploaded is usable as stored |
| VlmStore.NoProblemIff | src/lib/vlm-schema.ts:239-254 | a report has no problem if and only if there is a row, the valid ones reach the minimum, and at most one row in fifty is invalid; each other case has its own problem |

## Left out

- HTTP handlers, SSE, React code, Docker, Transformer Lab, S3 and GPU calls, auth and path guards: plumbing around the
  modelled logic. `resolve_path`, the loader, the predictor and the memory probe are steps that succeed or fail.
- `Served` objects are a table indexed by identity, and a lock is the identity of its holder. Which load owns a
  reservation, an object's stage, and whether the last write worked are auxiliary.
- Without a state file the server saves nothing: the model has that as writes that never go through. Error texts,
  timestamps and the `free` call are not modelled, and a sequence length given as text is ASCII digits.
- RegistryRecovery.BootRestores: order and settings are described for boots in which no admin call runs before the server is
  ready; with such calls, names are.
- The pool's workers throw only inside their own handlers; `prune`, `list`, the stale-run status and the report's
  contents are not part of the pool model.
- VlmScoring.ScoreRange: takes the normalisers, `parseNumber` and `extractChoice` as parameters; their regular
  expressions are not modelled. The order of the category table and the mean latency and token counts are left out too.
- IEEE rounding and overflow. `mean`, log loss, the mean error of score questions, macro-F1 of `questionReport` and the
  per-question roll-up of `buildDecisionReport` are means over what is modelled.
- DecisionConfusion.SupportIsRightIff: says nothing of the statistics of a label that is itself the name of a member of
  `Object.prototype`, nor of what a true label `__proto__` writes into that object for later records.
- DecisionStore.MostCommonAreShown: is about which labels are chosen; the record they are put in lists keys that are
  integers, as those of a score are, first.
- The trainer's reader splits the stored file at line feeds as `Read` does, because a printed row starts and ends with a
  brace and holds no control character.
- DecisionSchemaTwin.TwinsAgreeIff: compares the two checks on the same parsed row; where the two parsers read a line or a
  stringified field differently is not compared.
- VlmSchema.CheckRow: takes `imageRefProblem` as a parameter.
- HostCommand.TemplateArgsAreExactIff: is about templates that leave the shell outside quotes at the placeholder, hold no
  `#`, and, where the text before or after the placeholder has a `$` of its own, some ordinary character there too. Operators
  and expansions of the script text are recorded as unquoted characters, not carried out, here-documents are not
  modelled, and arguments hold no NUL.
- LineProtocol.ResolvesIff: the decoding of bytes, timeouts, and the text of the error and of `clean` are left out.
- `normalizeJsonl`, `pairsToJsonl`, `detectFormat`, parameter ranges, `validate_questions`, decision-row previews: they
  would add only easy members.
