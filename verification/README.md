# A verified model of the OCI Functions operator

The operator reconciles Kubernetes objects with Oracle Cloud: Functions and their
applications, batches of invocations (FunctionJob), events that trigger Functions
(FunctionEvent), and OCI Events rules (FunctionEventTrigger).  Its controllers run again and
again over persisted status, and its managers drive cloud services that can fail, answer 404,
deliver listings in pages, or lose the answer to a write.  This project models that logic in
Dafny and proves what it keeps over whole runs.

Each core has the same shape.  A *specification* module describes one step as a function of the
persisted state and of what the environment does.  A *class* has the controller's form, with
fields, loops and early returns, and each of its methods is proved equal to its step.  The
remaining modules prove what the steps add up to.

| core | step and class | what is proved about it |
|---|---|---|
| FunctionJob engine | `FunctionJobs`, `JobReconciler` | `JobCalls`, `JobProgress`, `JobBudget`, `JobAccounts` |
| FunctionEvent router | `TriggerRouting`, `FunctionEvents`, `EventReconciler` | `TriggerRouting`, `EventCalls`, `EventRuns`, `EventWakeups`, `EventAborts` |
| conditions and error texts | `Conditions`, `ErrorTexts` | `Conditions`, `ErrorTexts`, `CleanedTexts`, `RequestIds`, `OpenFields`, `HarmlessIds`, `InvokerTexts` |
| OCI Events rules | `EventRules`, `TriggerReconciler` | `RuleRuns`, `TriggerRules` |
| applications and their logs | `Applications`, `LogGroups` | `Applications`, `LogGroups` |
| Functions and their deletion | `ManagedFunctions`, `FunctionReconciler` | `ManagedFunctions`, `FunctionContents`, `DeletionSafety` |

`Invocations`, `CloudAnswers` and `Strings` hold what the cores share.  The invoker is an
arbitrary function of the calls made so far; its calls and answers form a log that no reconciler
reads and the theorems do.  A cloud call takes the behaviour of the service as a parameter (which
page fails, whether a write takes effect and whether its answer arrives), and a theorem says what
it asks of that behaviour.  An object that is read and written back is one pass over its status;
a pass that returns an error leaves the stored status as it was.

`dafny verify dfyconfig.toml` checks the project.

## What the proofs turned up

The model follows the code; where the code does not do what is said of it, a lemma gives the
exact condition or a concrete case.

- *Lowering the retry limit of a running job.*  An unfinished payload that has already used the
  new limit is marked Running and never called again: the job stays Running and requeues for
  ever.  A fresh job gets there in one pass, a job with such a payload never finishes, one without
  always does (`JobAccounts.StuckIsReached`, `JobAccounts.StuckForever`,
  `JobAccounts.FinishesUnlessStuck`).
- *A FunctionEvent pass that cannot read a Function* drops the status it has built but not the
  invocations it has made.  A trigger loses its ledger exactly if a Function that is due cannot be
  read and the trigger is called before that (`EventAborts.AbortedPassLedger`); a fresh event whose
  second Function cannot be read invokes the first one in every pass, success or not
  (`EventAborts.AbortedRunRepeatsSuccess`).
- *Without an invoker* a FunctionEvent pass overwrites the phase of every invocation
  (`EventAborts.NilInvokerLedger`).
- *A Processed or Failed phase left by an older generation* is not summarized again.  A pass that
  leaves an invocation pending asks to be run again if and only if the stored phase is not
  Processed (`EventWakeups.WakesExactly`, `EventWakeups.SleepsWithPending`); after Failed it does
  ask, but the next pass returns at once (`EventWakeups.StalePhaseIsFinal`).
- *The condition rewriter is not idempotent*: `[[y]]` becomes `[y]`, then `y`.  It is exactly on
  trees that collapse to flat ones (`Conditions.IdempotentExactly`).  It is applied before the
  data is checked to be an object, so an array of one object passes (`Conditions.DocumentDomain`).
- *An id can complete a marker or a delimiter* together with the text behind it, and then the
  cleaned error text depends on it (`InvokerTexts.IdsCanMatter`).  Take the ids without white space,
  in fields with or without white space before the id, and let the id end where the text does or at
  any character that is neither a letter nor a dash.  The ids that never matter are exactly those
  that contain no marker but the last and end neither in punctuation nor in "opc", "request" or
  "opc-request-id" (`HarmlessIds.IgnoredExactly`).  In the texts of the OCI invoker in which a
  colon follows `ociRequestId=` and the id, only a marker inside it and an "opc-request-id" at its
  end matter (`InvokerTexts.InvokerTextsExactly`).
- *Empty lists are sent as nil.*  docs/design.md:93 says that an empty list of security groups
  clears them.  The copy that is sent turns the empty list into nil, which leaves the groups in
  place: each pass reports success, and the next one writes again.  The same holds for empty
  application and Function configurations (`Applications.NsgsAreNeverCleared`,
  `Applications.SecondEnsureWritesNothing`, `ManagedFunctions.SecondEnsureFn`).
- *A trigger that has lost its rule id leaves its rule behind* when it is deleted, and so does one
  turned into a pure functionevent route (`RuleRuns.WhatDeletionLeaves`,
  `RuleRuns.RoutingForgetsRule`).  A rule is never moved to another compartment
  (`RuleRuns.CompartmentChangeIgnored`).
- *A dead rule is kept.*  The search by id accepts a rule that is deleted or being deleted, which the
  listing skips.  A call then reports the dead rule, successfully if it is as desired, and while its
  id answers no call replaces it (`RuleRuns.ReportedIsLive`, `RuleRuns.DeadRuleIsNeverReplaced`).
- *A Function whose FunctionApplication is gone* loses both ids in the next pass; its deletion then
  fails for good (`DeletionSafety.MissingReferenceTraps`).
- *A function id that was never stored* can let the object go while its function lives.  A release
  is safe exactly if no id is recorded or the recorded function is the only live one
  (`DeletionSafety.ReleaseSafeExactly`, `DeletionSafety.StaleStatusLeaks`).
- *Two checks of a log cannot fail*: the defaults are put in before service and category are
  compared with the blank text (`LogGroups.NothingAskedForIsBlank`).

## Model

| member | source | states |
|---|---|---|
| JobReconciler.FunctionJob.InvokeRunnablePayloads | internal/controller/functionjob_controller.go:224-279 | the two loops over payloads and attempts leave the statuses, the job's two error fields, the calls, the number processed and the stop flag of the specified sweep |
| JobReconciler.FunctionJob.InvokePayload | internal/controller/functionjob_controller.go:241-276 | the inner retry loop makes exactly the calls, in order, and ends in exactly the entry that the recursive visit gives |
| JobReconciler.FunctionJob.EnsurePayloadStatuses | internal/controller/functionjob_controller.go:350-377 | rebuilding the list through a map by index equals the position-by-position carry-over |
| JobReconciler.FunctionJob.RecomputeInvocationCounts | internal/controller/functionjob_controller.go:384-403 | the counting loop publishes the number of entries per phase and the attempts beyond the first |
| JobReconciler.FunctionJob.SummarizeInvocationState | internal/controller/functionjob_controller.go:281-334 | the four counters, the case distinction over them and the conditions set in each case leave the specified summary: Running while a payload is unfinished, else Failed if one failed, else Succeeded |
| JobReconciler.FunctionJob.Reconcile | internal/controller/functionjob_controller.go:50-153 | a whole pass, on every branch, leaves the status, the calls and the requeue decision of the specified pass |
| JobCalls.CallsSendPayloads | internal/controller/functionjob_controller.go:243-247 | over every run from a fresh job each call goes to the ready Function that one of the passes has read, with the bytes that the spec of that pass has at the index of the call, and is answered by its invoker |
| JobCalls.PassSends | internal/controller/functionjob_controller.go:224-279 | the calls of one pass, in the order of the payloads |
| JobCalls.SuccessWasSent | internal/controller/functionjob_controller.go:241-276 | a payload that is reported Succeeded has been sent, with its own bytes, and answered without an error |
| JobCalls.PassRecords | internal/controller/functionjob_controller.go:253-334 | a pass keeps the last request id true to the log; one that completes reports as last error that of its last failed call, and none once the job has succeeded |
| JobCalls.LastRequestIdIsLast | internal/controller/functionjob_controller.go:257-259 | over every run the last request id is that of the last answer that had one |
| JobCalls.PassReports | internal/controller/functionjob_controller.go:62-131 | what a pass finds: the generation, whether the Function can be invoked, and with which phase and message it stops short |
| JobCalls.ReasonsToStop | internal/controller/functionjob_controller.go:74-131 | the condition that is true says why a pass has stopped short |
| JobCalls.ReasonsAtTheEnd | internal/controller/functionjob_controller.go:281-334 | and how one that completes has ended |
| JobCalls.NotImplementedPass | internal/controller/functionjob_controller.go:123-128 | a pass that finds the invoker not implemented ends Pending, and does not ask to be run again |
| JobCalls.UnreadablePass | internal/controller/functionjob_controller.go:65-98 | without a Function's name the job fails; a Function that cannot be read is an error that changes nothing |
| JobCalls.ParallelismIsAtLeastOne | api/v1alpha1/functionjob_types.go:209-214 | a parallelism below 1 counts as 1 |
| JobCalls.CompletedExactlyWhenTerminal | internal/controller/functionjob_controller.go:155-222 | over every run the completion time is set exactly while the job is terminal |
| JobProgress.VisitFinishes | internal/controller/functionjob_controller.go:241-276 | one visit leaves a payload finished, or Pending with attempts left exactly if the invoker turned out not to be implemented |
| JobProgress.SweepKeepsShape | internal/controller/functionjob_controller.go:224-279 | a sweep keeps indexes, digests and the list's length, leaves entries before its start alone, and keeps every entry settled |
| JobProgress.SweepCompose | internal/controller/functionjob_controller.go:224-279 | two sweeps with budgets p and q are one sweep with budget p + q: same entries, same calls, same count |
| JobProgress.SweepCount | internal/controller/functionjob_controller.go:224-279 | a sweep with a budget of b removes exactly min(b, runnable) payloads from the runnable ones |
| JobProgress.EnsureStatusesAligned | internal/controller/functionjob_controller.go:350-382 | index i and the digest of payload i stand at position i, whatever list was stored |
| JobProgress.EnsureStatusesIdempotent | internal/controller/functionjob_controller.go:350-377 | doing it twice is doing it once |
| JobProgress.TerminalRunStays | internal/controller/functionjob_controller.go:58-60 | a terminal job makes no call and changes nothing in any run |
| JobProgress.CompletedPass | internal/controller/functionjob_controller.go:132-152 | after a pass that invokes, Succeeded, Failed and Running hold exactly as the list says, and a requeue is asked for exactly if a runnable payload remains |
| JobProgress.SecondPass | internal/controller/functionjob_controller.go:109-152 | a further pass goes on where the first one stopped: together they are one pass with the summed parallelism |
| JobProgress.PassesCompose | internal/controller/functionjob_controller.go:109-152 | the law: a pass with parallelism p and then one with q equal a pass with p + q, in status, calls and answers |
| JobProgress.RunIsOnePass | internal/controller/functionjob_controller.go:224-334 | any run, with any parallelism in each pass, is one pass with the sum |
| JobProgress.ParallelismIrrelevant | internal/controller/functionjob_controller.go:224-279 | two runs to the end agree on the call trace and on every entry, however they split the work |
| JobProgress.OnePassProgress | internal/controller/functionjob_controller.go:281-334 | a pass ends the job exactly if its parallelism covers every runnable payload |
| JobProgress.ExactProgress | internal/controller/functionjob_controller.go:224-334 | a fresh job with n payloads and parallelism p is Running after k passes exactly if k * p < n, and terminal exactly from pass ceil(n / p) on |
| JobProgress.Aggregation | internal/controller/functionjob_controller.go:281-334 | after any run and a pass that completes: Succeeded iff all payloads succeeded, Failed iff all are finished and one failed, Running iff a runnable one remains, which is when a requeue is returned |
| JobProgress.RunStaysSettled | internal/controller/functionjob_controller.go:405-413 | under a constant retry limit every run, with edits, missing Functions and missing invokers, keeps failed payloads out of attempts and unfinished ones with attempts left |
| JobBudget.VisitLedger | internal/controller/functionjob_controller.go:241-276 | a visit keeps the entry's ledger true against the log and leaves the history of every other payload alone |
| JobBudget.SweepLedger | internal/controller/functionjob_controller.go:224-279 | a sweep keeps the ledger of every payload, and does not touch or call a payload that has succeeded |
| JobBudget.CarryOverKeeps | internal/controller/functionjob_controller.go:350-377 | the entry of a payload with unchanged bytes survives any edit of the others |
| JobBudget.CarryOverExactly | internal/controller/functionjob_controller.go:350-382 | which entries are kept, and that every other payload starts afresh |
| JobBudget.RunKeeps | internal/controller/functionjob_controller.go:50-153 | whole runs keep the ledger, including passes stopped by a missing invoker or Function |
| JobBudget.RetryBudget | internal/controller/functionjob_controller.go:224-279 | in every run from a fresh job a payload gets at most retryLimit + 1 counted calls and at most one success, no call follows it, its attempts equal its counted calls, and its entry shows the answer to the last of them |
| JobBudget.SuccessIsFinal | internal/controller/functionjob_controller.go:350-377 | once a payload has succeeded, no later pass that still carries its bytes at that index touches its entry or calls for it, whatever becomes of the other payloads and of the retry limit |
| JobAccounts.SweepTotal | internal/controller/functionjob_controller.go:224-279 | attempts are conserved: what the entries gain is what the log counts |
| JobAccounts.CountersTellTheTruth | internal/controller/functionjob_controller.go:384-403 | after any run a completed pass publishes true counters, and Retries is the counted calls minus the payloads attempted |
| JobAccounts.RunNamesPhase | internal/controller/functionjob_controller.go:155-222 | after every run exactly one of the four phase conditions is true, the one the phase names |
| JobAccounts.StuckForever | internal/controller/functionjob_controller.go:241-242 | a payload without attempts left after the limit was lowered is never called again, and keeps the job Running for ever |
| JobAccounts.StuckIsReached | internal/controller/functionjob_controller.go:241-276 | a fresh job gets there: an error answer, then a missing invoker, then a lower limit |
| JobAccounts.FinishesUnlessStuck | internal/controller/functionjob_controller.go:241-242 | as many passes as there are payloads end the job if and only if no payload is stuck |
| TriggerRouting.ClassifyTrigger | internal/controller/functionevent_controller.go:460-478 | the scan with two flags finds exactly what the event types say, in any order |
| TriggerRouting.MatchingTriggers | internal/controller/functionevent_controller.go:184-201 | the loop and the sort return the specified matches, strictly sorted by name |
| TriggerRouting.MatchingIsExact | internal/controller/functionevent_controller.go:184-201 | the matches are exactly the enabled pure functionevent triggers that name the event's type |
| TriggerRouting.CanonicalMatching | internal/controller/functionevent_controller.go:184-201 | every permutation of the listing gives the same sequence |
| TriggerRouting.RoutesAreDisjoint | internal/controller/functioneventtrigger_controller.go:86-130 | no trigger that reaches rule management can match any FunctionEvent |
| TriggerRouting.PrefixedTypes | internal/controller/functionevent_controller.go:456-458 | an event type is this operator's exactly if it starts, after white space, with functionevent. |
| Strings.LessIsLexicographic | internal/controller/functionevent_controller.go:199 | the order of the names: one comes first if it is a beginning of the other, or smaller where they first differ |
| EventReconciler.IndexIsPosition | internal/controller/functionevent_controller.go:373-379 | with distinct names the index map is the list position |
| EventReconciler.FunctionEvent.InvokeTrigger | internal/controller/functionevent_controller.go:216-271 | one round of the loop: the invocation, the call, the requeue and the way of ending of the specified visit |
| EventReconciler.FunctionEvent.InvokeMatchedTriggers | internal/controller/functionevent_controller.go:203-273 | the loop over triggers leaves the invocations, the calls and the way of ending of the specified walk |
| EventReconciler.FunctionEvent.EnsureInvocationStatuses | internal/controller/functionevent_controller.go:351-371 | carrying the invocations over by trigger name |
| EventReconciler.FunctionEvent.SummarizeEvent | internal/controller/functionevent_controller.go:323-349 | the specified phase of an event |
| EventReconciler.FunctionEvent.Reconcile | internal/controller/functionevent_controller.go:65-155 | a whole pass on every branch |
| EventCalls.CallsReachTriggers | internal/controller/functionevent_controller.go:234-252 | over every run from a fresh event, dropped passes included, each call is for a trigger that the event reaches in one of the passes, goes to the ready Function that was read for it, and carries the rendered event |
| EventCalls.PassSends | internal/controller/functionevent_controller.go:203-273 | the calls of one pass, in the order of the triggers' names, and none twice |
| EventCalls.RunNamesPhase | internal/controller/functionevent_controller.go:381-420 | after every run condition Processed is present and true exactly if the phase is Processed, and condition Failed exactly if it is Failed |
| EventCalls.SummaryReasons | internal/controller/functionevent_controller.go:323-349 | why an event has failed, is done, or is neither |
| EventCalls.PassReports | internal/controller/functionevent_controller.go:96-107 | a stored pass reports the generation and the matched triggers, with one invocation for each, for the Function it names now |
| EventCalls.PassWithoutWalk | internal/controller/functionevent_controller.go:80-128 | how a pass ends that calls nobody: an invalid type, an unreadable listing, no match, or a payload that does not render |
| EventCalls.PassWithoutInvoker | internal/controller/functionevent_controller.go:109-117 | without an invoker the event is open again, whatever phase was stored, and asks to be run again |
| EventCalls.NotImplementedPass | internal/controller/functionevent_controller.go:118-154 | so does one whose invoker turns out not to be implemented, with the phase its invocations earn |
| EventRuns.CarryOverByName | internal/controller/functionevent_controller.go:351-371 | entry i belongs to trigger i; an entry found by name is kept but for the Function it refers to |
| EventRuns.IndexAfterCarryOver | internal/controller/functionevent_controller.go:351-379 | after the carry-over the name-to-index map equals the position |
| EventRuns.SummarizeSays | internal/controller/functionevent_controller.go:323-349 | Failed exactly if some invocation is Failed, Processed exactly if every one succeeded, Processing otherwise; the invocations stay as they are |
| EventWakeups.NoLostWakeup | internal/controller/functionevent_controller.go:109-154 | a persisted pass over an open event that leaves it open returns the 30 second requeue, and the phase it leaves is earned: Failed exactly if some invocation failed |
| EventWakeups.WakesExactly | internal/controller/functionevent_controller.go:130-154 | of the passes that leave an invocation pending exactly those ask to be run again whose stored phase is not Processed, the phases of older generations included |
| EventWakeups.StalePhaseIsFinal | internal/controller/functionevent_controller.go:73-78 | a terminal phase of an older generation is taken over by the new one, and then no later pass calls anybody or changes anything, requeue or not |
| EventWakeups.SleepsWithPending | internal/controller/functionevent_controller.go:130-154 | a run from a fresh event that leaves an invocation pending and asks for nothing |
| EventWakeups.FailedExactlyWhenUsedUp | internal/controller/functionevent_controller.go:203-349 | over every run of one generation the event is Failed exactly if an unsucceeded invocation has used all 3 attempts, and, once taken up, Processed exactly if every invocation succeeded |
| EventRuns.RetryBound | internal/controller/functionevent_controller.go:203-273 | a trigger matched in every pass gets at most 3 counted invocations and one success, none after it, and its attempts equal its counted invocations |
| EventRuns.ThreePassesClose | internal/controller/functionevent_controller.go:203-349 | with fixed triggers, ready Functions and an implemented invoker the event is terminal after three passes and stays so |
| EventAborts.WalkAbortsExactly | internal/controller/functionevent_controller.go:203-273 | with an implemented invoker a walk is aborted exactly if a Function that is due cannot be read |
| EventAborts.WalkCallsExactly | internal/controller/functionevent_controller.go:203-273 | it calls a trigger once exactly if the trigger is due, its Function is ready and nobody before it blocks, and otherwise not at all |
| EventAborts.AbortedPassLedger | internal/controller/functionevent_controller.go:118-128 | a trigger's ledger is lost exactly if, of what the pass starts from, a Function that is due cannot be read and the trigger is called before that |
| EventAborts.AbortedRunRepeatsSuccess | internal/controller/functionevent_controller.go:118-128 | two passes over a fresh event that store nothing and succeed twice for one trigger |
| EventAborts.NilInvokerLedger | internal/controller/functionevent_controller.go:109-117 | without an invoker a ledger stays true exactly if the invocation was still pending |
| Conditions.NormalizeDomain | internal/controller/functioneventtrigger_controller.go:381-415 | the rewriter accepts exactly the trees without null and without an empty array, and changes nothing when it does not collapse |
| Conditions.NormalizePreservesMatching | internal/controller/functioneventtrigger_controller.go:381-415 | under any-of arrays a rewritten tree matches exactly the events the original matches, for every accepted tree, collapsed or not |
| Conditions.NormalizeKeepsKeys | internal/controller/functioneventtrigger_controller.go:381-394 | every object along a path keeps its set of keys |
| Conditions.CollapseFixpoint | internal/controller/functioneventtrigger_controller.go:394-409 | collapsing changes nothing exactly on flat trees |
| Conditions.CollapseFlattens | internal/controller/functioneventtrigger_controller.go:394-409 | exactly which trees become flat |
| Conditions.IdempotentExactly | internal/controller/functioneventtrigger_controller.go:381-415 | rewriting twice is rewriting once exactly on the trees that collapse to flat ones |
| Conditions.ScalarArraysCollapseFlat | internal/controller/functioneventtrigger_controller.go:381-415 | trees whose arrays hold only scalars are among them |
| Conditions.NestedSingletons | internal/controller/functioneventtrigger_controller.go:394-409 | a concrete tree on which rewriting is not idempotent |
| Conditions.RenderConditionEventType | internal/controller/functioneventtrigger_controller.go:341-357 | the loop trims every type and fails exactly on a blank one or an empty list |
| Conditions.EventTypesMatch | internal/controller/functioneventtrigger_controller.go:341-357 | the rendered types match an event exactly if one of the trimmed types does |
| Conditions.DocumentMeansSpec | internal/controller/functioneventtrigger_controller.go:301-339 | the document that is sent matches exactly the events the condition asks for |
| Conditions.DocumentDomain | internal/controller/functioneventtrigger_controller.go:306-333 | exactly which structured conditions are accepted |
| Conditions.RawDomain | internal/controller/functioneventtrigger_controller.go:359-469 | exactly which raw documents are accepted |
| ErrorTexts.RemoveInlineOCIErrorField | internal/controller/functioneventtrigger_controller.go:656-672 | the loop stops, because each round shortens the text, and leaves no text after the marker |
| ErrorTexts.NothingAfterMarker | internal/controller/functioneventtrigger_controller.go:656-672 | an occurrence of the marker, in any case of letters, that is left is the end of the text |
| ErrorTexts.FirstMarkerIsFirst | internal/controller/functioneventtrigger_controller.go:584-592 | the search finds the first occurrence, whatever the case of its letters |
| ErrorTexts.SanitizeOCIErrorText | internal/controller/functioneventtrigger_controller.go:614-635 | the loop over lines gives the specified text |
| CleanedTexts.WordsKept | internal/controller/functioneventtrigger_controller.go:614-635 | the words of the cleaned text are exactly the words left of the lines that are not dropped, in order, with single blanks between them and no other white space |
| CleanedTexts.DroppedExactly | internal/controller/functioneventtrigger_controller.go:619-654 | which lines are dropped: blank ones, and those that start, in any case of letters, with one of seven texts |
| CleanedTexts.LineKept | internal/controller/functioneventtrigger_controller.go:617-629 | a line without a marker is only trimmed |
| CleanedTexts.CutIsTheField | internal/controller/functioneventtrigger_controller.go:656-672 | one round of a removal cuts out the first marker and what follows it up to the first delimiter of the kind that counts, and keeps the rest |
| CleanedTexts.CutToTheEnd | internal/controller/functioneventtrigger_controller.go:656-672 | without a delimiter the cut goes to the end |
| CleanedTexts.SplitJoins | internal/controller/functioneventtrigger_controller.go:616 | the lines put together again are the text, and none contains a line end |
| CleanedTexts.FieldsAreWords | internal/controller/functioneventtrigger_controller.go:634 | the words of a text are not blank, hold no white space, and together are the text without its white space |
| CleanedTexts.FieldsAcross | internal/controller/functioneventtrigger_controller.go:634 | white space separates: the words to its left, then those to its right |
| RequestIds.CutRelated | internal/controller/functioneventtrigger_controller.go:656-672 | cutting any field out of lines that differ in one id leaves equal lines or lines that still differ in that id only |
| RequestIds.OwnMarkerRemoved | internal/controller/functioneventtrigger_controller.go:656-672 | removing the marker that opens the id's field makes the lines equal |
| RequestIds.IdsAreIgnored | internal/controller/functioneventtrigger_controller.go:614-635 | a line is cleaned to the same text whatever the id in one of its fields is |
| RequestIds.RequestIdIgnored | internal/controller/functioneventtrigger_controller.go:614-635 | the common case: any text, a marker, white space or none, an id, and any text that may follow it, one over whose first character neither a marker nor a delimiter runs |
| RequestIds.VolatilePartsAreIgnored | internal/controller/functioneventtrigger_controller.go:614-654 | messages that differ in ids and in any number of volatile lines have the same cleaned text |
| OpenFields.LineTells | internal/controller/functioneventtrigger_controller.go:614-672 | of a line that opens with a field and has one delimiter the last word is left if and only if no marker that is removed before the field's own occurs in it |
| HarmlessIds.IgnoredExactly | internal/controller/functioneventtrigger_controller.go:614-672 | an id without white space is ignored, in every field, with or without white space before the id, and before every text that does not start with a letter or a dash, if and only if it contains no marker but the last and ends neither in punctuation nor in "opc", "request" or "opc-request-id" |
| HarmlessIds.PunctuationMatters | internal/controller/functioneventtrigger_controller.go:656-672 | for every id that ends in punctuation, a line in which its end is taken for a delimiter |
| HarmlessIds.RequestMatters | internal/controller/functioneventtrigger_controller.go:623-628 | for every id that ends in "request", a line in which it completes a marker |
| HarmlessIds.OpcMatters | internal/controller/functioneventtrigger_controller.go:623-628 | for every id that ends in "opc", a line in which it completes a marker |
| HarmlessIds.DashedMatters | internal/controller/functioneventtrigger_controller.go:623-628 | for every id that ends in "opc-request-id", a line in which it completes a marker |
| HarmlessIds.ContainedMarkerMatters | internal/controller/functioneventtrigger_controller.go:623-628 | for every id that contains a marker other than the last, a line in which it is cut at that marker |
| InvokerTexts.InvokerTextsExactly | internal/invoker/oci.go:225-278 | in texts of the form that the OCI invoker writes when nothing else follows the id, `ociRequestId=`, an id, a colon and a message, the id is ignored if and only if it contains no marker but the last and does not end in "opc-request-id" |
| InvokerTexts.IdsCanMatter | internal/controller/functioneventtrigger_controller.go:623-628 | two pairs of concrete lines, one in the invoker's form, that differ in an id only and are cleaned to different texts |
| EventRules.RuleManager.FindRule | internal/eventtrigger/oci.go:192-237 | the page loop agrees with a linear search of the concatenated pages that arrive |
| EventRules.RuleManager.EnsureRule | internal/eventtrigger/oci.go:105-162 | rules, result and write calls of the specified step, on every outcome |
| EventRules.RuleManager.DeleteRule | internal/eventtrigger/oci.go:165-190 | deletion by id, with 404 counted as done |
| TriggerReconciler.FunctionEventTrigger.Reconcile | internal/controller/functioneventtrigger_controller.go:86-200 | routing, finalizer, and the rule id that is recorded, cleared by every failure before a rule is found |
| TriggerReconciler.FunctionEventTrigger.ReconcileDelete | internal/controller/functioneventtrigger_controller.go:202-228 | when a deletion calls the manager and when it lets the object go |
| RuleRuns.FindIsExact | internal/eventtrigger/oci.go:192-237 | of a complete listing the search finds a live tagged rule, and reports none only if there is none |
| RuleRuns.EnsureKeeps | internal/eventtrigger/oci.go:105-162 | one call keeps at most one live tagged rule, whichever answer is lost or faulty, and the id it reports is that rule's |
| RuleRuns.EnsureFrame | internal/eventtrigger/oci.go:105-162 | at most one write, to at most one rule, and none when it cannot be known whether a rule exists; no rule changes its compartment or its life cycle |
| RuleRuns.AtMostOneRule | internal/eventtrigger/oci.go:105-162 | over every run of passes, lost ids, edits and outside changes at most one live rule carries the trigger's tags |
| RuleRuns.FreshTriggerHasOneRule | internal/controller/functioneventtrigger_controller.go:86-200 | the same for every run of a trigger that starts without a rule; an id that is recorded is that rule's |
| RuleRuns.EnsuredRuleServes | internal/eventtrigger/oci.go:239-333 | after a success the reported rule is as desired exactly if nothing was written or what was written survives trimming, and serves the trigger exactly if besides it is not a dead rule found by its id or one created dead |
| RuleRuns.ReportedIsLive | internal/eventtrigger/oci.go:192-232 | after a success the reported rule is live exactly if the recorded id did not answer with a dead rule and no rule was created dead |
| RuleRuns.DeadRuleIsNeverReplaced | internal/eventtrigger/oci.go:192-202 | while a recorded id answers with a dead rule, no call replaces it, brings it back or forgets it, whatever is asked for and whatever becomes of the updates |
| RuleRuns.SecondCallReads | internal/eventtrigger/oci.go:140-161 | a second call only reads, exactly under the same condition, and then reports the same id |
| RuleRuns.SecondCallWithoutId | internal/eventtrigger/oci.go:203-237 | so does one that has lost the id: the tags lead back to the rule |
| RuleRuns.TriggerRuleSurvives | internal/controller/functioneventtrigger_controller.go:286-299 | the desired rule of every trigger meets that condition |
| RuleRuns.CompartmentChangeIgnored | internal/eventtrigger/oci.go:192-202 | asking for another compartment neither moves a recorded rule nor creates one |
| RuleRuns.WhatDeletionLeaves | internal/controller/functioneventtrigger_controller.go:202-228 | no rule is left behind exactly if an id was recorded or no rule existed |
| RuleRuns.RoutingForgetsRule | internal/controller/functioneventtrigger_controller.go:97-111 | a trigger turned into a functionevent route lets go of its rule without deleting it, and the deletion that may follow does not delete it either |
| RuleRuns.TagsNameTheTrigger | internal/eventtrigger/oci.go:358-371 | a rule is a trigger's exactly if its three tags name the trigger |
| TriggerRules.PassGivesRule | internal/controller/functioneventtrigger_controller.go:157-172 | a pass over a managed trigger, with its Function and condition there and a service that answers, records a live rule with the trigger's name, description, function, flag, condition and tags, in its compartment if it is new |
| TriggerRules.OtherPassesLeaveRules | internal/controller/functioneventtrigger_controller.go:86-156 | every other pass leaves the rules alone; what it does to the recorded id and the finalizer |
| TriggerRules.DeletionReleases | internal/controller/functioneventtrigger_controller.go:202-228 | a deletion lets the object go exactly if there is nothing to delete or the deletion is answered or finds nothing; it touches the recorded rule only |
| TriggerRules.EnsureSucceeds | internal/eventtrigger/oci.go:105-162 | a call succeeds exactly if nothing asked for is blank, the search does not fail, and its write, if it makes one, is answered |
| TriggerRules.ReadyMeansSettled | internal/eventtrigger/oci.go:334-341 | a rule is reported ready exactly if the call has succeeded and the rule is active or inactive |
| Applications.SameStringSet | internal/lifecycle/oci.go:1165-1180 | true exactly if the two lists are equal as multisets |
| Applications.ApplicationManager.EnsureApplicationMutableFields | internal/lifecycle/oci.go:589-662 | what is refused, what is sent and what comes back |
| Applications.ApplicationManager.EnsureApplication | internal/lifecycle/oci.go:505-576 | lookup by id or by name, resolve only, create or update, as specified |
| Applications.MismatchWritesNothing | internal/lifecycle/oci.go:590-595 | a call ends in an error without a write exactly if the name or the subnets of the application differ |
| Applications.MismatchNeverWrites | internal/lifecycle/oci.go:590-595 | such a difference is refused and never written over, through any number of calls |
| Applications.EnsureFrame | internal/lifecycle/oci.go:505-662 | at most one write; what is not managed, and every other application, stays as it is |
| Applications.UpdateSettles | internal/lifecycle/oci.go:600-615 | an update leaves a difference exactly if an empty list or map was asked for and the application has entries |
| Applications.EnsuredMeets | internal/lifecycle/oci.go:505-662 | after a success the application is as desired exactly if it is not stuck in that way |
| Applications.SecondEnsureWritesNothing | internal/lifecycle/oci.go:505-662 | a second call writes nothing exactly if the application is not stuck |
| Applications.NsgsAreNeverCleared | internal/lifecycle/oci.go:1151-1156 | asking for no security groups leaves them in place through any number of calls, each of which writes and, if it is answered, reports success |
| Applications.LocatesTheApplication | internal/lifecycle/oci.go:505-545 | a call is about the application asked for by id, else a live one of the name, else none exactly if there is none |
| Applications.CreatedIsAsAsked | internal/lifecycle/oci.go:546-576 | every field of a new application |
| Applications.UpdateIsAsAsked | internal/lifecycle/oci.go:597-640 | an update sends each managed field exactly if it differs, with the wanted value, and leaves an empty one out |
| Applications.EnsureSucceeds | internal/lifecycle/oci.go:505-662 | exactly when a call succeeds, and which id a failure tells |
| LogGroups.LogManager.ListLogs | internal/lifecycle/oci.go:675-697 | the page loop collects the whole listing, and the logs with the wanted source, or fails with the page that fails |
| LogGroups.LogManager.DisplayNameConflict | internal/lifecycle/oci.go:1006-1015 | true exactly if another log of the group has the name |
| LogGroups.LogManager.EnsureApplicationInvocationLog | internal/lifecycle/oci.go:664-771 | logs, result and write calls of the specified step |
| LogGroups.MatchingIsTheLog | internal/lifecycle/oci.go:687-692 | of a complete listing the matching logs are exactly those that serve the application |
| LogGroups.StaysOrderly | internal/lifecycle/oci.go:664-771 | names stay unique in the group and so do the sources of service logs, whatever becomes of the write |
| LogGroups.SuccessMeansServed | internal/lifecycle/oci.go:664-771 | on success exactly one log serves the application, with the wanted name and flag |
| LogGroups.ErrorsWriteNothing | internal/lifecycle/oci.go:664-771 | at most one write; an error leaves the group alone unless that write went wrong; no other log changes |
| LogGroups.CreatesExactlyWhenFree | internal/lifecycle/oci.go:698-733 | a log is created exactly if the listing arrives, none serves the application and the name is free |
| LogGroups.SecondCallWritesNothing | internal/lifecycle/oci.go:734-757 | after a success the next call writes nothing, and succeeds exactly if it can list and the log has settled |
| LogGroups.NothingAskedForIsBlank | internal/lifecycle/oci.go:912-917 | service, category and name of the log that is asked for are never blank, so these checks never fail |
| LogGroups.ApplicationHasLog | internal/lifecycle/oci.go:704-733 | after a success exactly one log has the application's source, with the name, flag, service and category asked for or their defaults |
| LogGroups.FirstCallSucceeds | internal/lifecycle/oci.go:698-733 | with nothing serving the application: exactly if the group can be listed, the name is free and the creation is answered |
| LogGroups.LaterCallSucceeds | internal/lifecycle/oci.go:734-757 | with a log that serves it: exactly when a call succeeds, and when the log is pending |
| ManagedFunctions.FunctionManager.EnsureFunction | internal/lifecycle/oci.go:773-827 | find, update or create, as specified |
| ManagedFunctions.FunctionManager.ResolveFunctionForDelete | internal/lifecycle/oci.go:425-503 | the function to delete by application and name, nothing, or no safe answer |
| ManagedFunctions.FunctionManager.DeleteManagedFunction | internal/lifecycle/oci.go:284-331 | functions, result and write calls of the specified deletion |
| ManagedFunctions.FunctionManager.CountActive | internal/lifecycle/oci.go:349-366 | the count is zero, and an application may go, exactly if there is one page and the whole listing holds no live function |
| ManagedFunctions.SecondEnsureFn | internal/lifecycle/oci.go:840-851 | a second call writes nothing exactly if no empty configuration is asked for over a non-empty one |
| FunctionContents.EnsuredFunctionIs | internal/lifecycle/oci.go:773-827 | a call that ends with a function, over a complete listing: it stands in the application, under the name, with image and limits as wanted, is created exactly if there is no live one, and is live unless it is created dead; no other function changes |
| FunctionContents.EnsureFnSucceeds | internal/lifecycle/oci.go:773-827 | a call ends with a function exactly if it can list, can read what it finds, and its write, if it makes one, is answered |
| FunctionReconciler.Function.Reconcile | internal/controller/function_controller.go:69-145 | finalizer first and alone, then the rebuilt status with the ids a pass ends with |
| FunctionReconciler.Function.ReconcileDelete | internal/controller/function_controller.go:147-213 | back-off, missing manager, deletion, and when the finalizer goes |
| FunctionContents.PassGivesFunction | internal/controller/function_controller.go:328-507 | a pass that manages its Function, with answered calls, records a live function in its application with the name, image, memory, timeout and configuration of the Function, defaults and older fields included |
| FunctionContents.ManagingPass | internal/controller/function_controller.go:328-507 | such a pass is one call for the function, and records the ids it ends with |
| FunctionContents.IdlePass | internal/controller/function_controller.go:69-145 | every other pass leaves the functions alone and records none |
| FunctionContents.OwnApplicationStored | internal/controller/function_controller.go:414-507 | what such a pass stores of an application of its own |
| FunctionContents.ReferenceStored | internal/controller/function_controller.go:215-280 | and of one that is referred to |
| DeletionSafety.EnsureKeepsOne | internal/lifecycle/oci.go:773-827 | ensuring a function keeps it the only live one of its name, even if the create answer is lost, and ends with its id or none |
| DeletionSafety.ResolutionIsExact | internal/lifecycle/oci.go:472-503 | of a complete listing the resolution is the live function, or nothing if there is none |
| DeletionSafety.DeletedIsOnly | internal/lifecycle/oci.go:298-317 | what a deletion is sent for is the only live function, by recorded id or by name |
| DeletionSafety.DeletedMeansNoneLive | internal/lifecycle/oci.go:284-331 | a deletion that reports success leaves no live function of the application and name |
| DeletionSafety.FinalizerGoesLast | internal/controller/function_controller.go:147-213 | deletion safety over whole runs: the pass that removes the finalizer leaves no live function |
| DeletionSafety.GoneMeansNoneLive | internal/controller/function_controller.go:69-82 | a Function that starts without one never lacks its finalizer while a live function exists |
| DeletionSafety.ReleasesExactly | internal/lifecycle/oci.go:288-316 | with all answers arriving, a deletion gets through exactly if a region is known and the function is, by id or by name |
| DeletionSafety.ReleaseSafeExactly | internal/controller/function_controller.go:147-213 | over every deletion pass that lets go of the object, whatever ids are stored: no live function is left exactly if no id was recorded or the recorded one was the only live function |
| DeletionSafety.LostReferenceKeepsObject | internal/controller/function_controller.go:215-249 | a Function that refers to an application and has lost both ids is never released |
| DeletionSafety.MissingReferenceTraps | internal/controller/function_controller.go:215-249 | a pass that finds the application gone leads there: no later deletion releases the object or deletes its function |
| DeletionSafety.StaleStatusLeaks | internal/controller/function_controller.go:570-585 | a concrete family in which an id that was not stored lets the object go while a function lives |
| DeletionSafety.ResolvesOnlyTheOnly | internal/lifecycle/oci.go:472-503 | a name resolves to the only live function, to nothing if there is none, and to no safe answer exactly if there are several |
| DeletionSafety.SeveralApplicationsAreUnresolved | internal/lifecycle/oci.go:425-471 | a name that several live applications have resolves to nothing |
| DeletionSafety.FailedDeletionIsMarked | internal/controller/function_controller.go:147-213 | a deletion that does not get through leaves the object, its ids and the mark that the next pass waits for |
| DeletionSafety.RegionStandsFourth | internal/lifecycle/oci.go:1040-1060 | the region is the fourth part of an OCID of the kind |
| DeletionSafety.DeletionRegionIs | internal/lifecycle/oci.go:284-297 | the region given, else the function's, else the application's |

## Left out

- RequestIdIgnored: ids contain no white space and no marker but the last, and what follows starts neither with a letter or a dash, which would belong to the id, nor with a character over which a marker or a delimiter runs. Without the last condition the claim is false; over all texts the condition is exact (`HarmlessIds.IgnoredExactly`).
- NoLostWakeup: speaks of open events. Passes that copy a terminal phase of an older generation are in `EventWakeups.WakesExactly` and `EventWakeups.StalePhaseIsFinal`.
- AbortedPassLedger: asks for an invoker that is implemented. One that answers that it is not implemented ends the walk there, so what stands behind it neither blocks nor is called; a pass without an invoker is in `EventAborts.NilInvokerLedger`.
- FailedExactlyWhenUsedUp: one generation, an invoker, a valid event type and a payload that renders; an invalid type or a payload that does not render fails the event as well.
- AtMostOneRule: identity and compartment are fixed, the recorded id is stored or lost but not stale, and others never give a rule the trigger's tags.
- FinalizerGoesLast: mode Managed and policy Delete are fixed, statuses are stored, the application stays, and nobody else creates a function of the name.
- Mode and policy changes of a Function: turning to Existing or Retain drops the finalizer by design, so no safety claim applies.
- The FunctionApplication controller, and DeleteApplication beyond its count of live functions.
- EnsureApplication as a whole: the application and its log are ensured one after the other; each part is modelled by itself.
- EnsureFunction's application part inside a Function pass: its answer is a parameter there; what it does is modelled in Applications.
- The compartment in the configuration of a log: the log group and the source decide which log serves an application.
- OCI SDK, HTTP, regions, authentication and start-up: wrappers over unseen libraries and environment plumbing. Region strings matter only where a deletion needs one.
- JSON text: conditions are trees, and decoding and encoding a rule's condition again is an arbitrary function of the text.
- SHA-256 and FNV: a digest is an arbitrary function of the bytes; event signatures are not modelled.
- Kubernetes conflicts, caches, watches and partial failures of a status write: a pass is persisted or it is not.
- Clocks, timestamps, the TTL of processed events, Kubernetes event recording and log messages.
- Wording of messages: reasons, phases and error fields are kept, texts for people are not.
- invocationTargetForFunction and functionNotReadyMessage: the target and the message are parts of the Function that is read.
- The branch for a Ready Function without an OCID (internal/controller/functionjob_controller.go:117-121, internal/controller/functionevent_controller.go:240-245): readiness already requires the OCID, so it cannot be taken.
- Width of int32 counters: the CRD bounds of 100 payloads and 10 retries keep them far from overflow, and the model is unbounded.
- strings.ToLower beyond ASCII letters, and sort.Slice as such: the sort is modelled as an insertion sort, which gives the only strictly sorted result when names are unique.
- Generated deep copies, CRDs, Helm and Kustomize files, and the example Function.
