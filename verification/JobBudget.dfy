/** Whole runs of a FunctionJob, part two: the retry budget of each payload, over every
    run of persisted passes.  Passes may find the Function missing, be stopped by an
    unimplemented invoker, change parallelism, target and invoker, and edit every payload
    but the one the theorem is about. */
module JobBudget {
  import opened Invocations
  import opened FunctionJobs
  import opened JobProgress

  /** The calls made for one payload, in order. */
  function History(log: Log, index: int): seq<Call> {
    if log == [] then []
    else
      var last := log[|log| - 1];
      History(log[..|log| - 1], index) + (if last.request.index == index then [last] else [])
  }

  /** The last call that counts, if any. */
  function LastCounted(calls: seq<Call>): Option<Call> {
    if calls == [] then None
    else if !calls[|calls| - 1].answer.AnswerNotImplemented? then Some(calls[|calls| - 1])
    else LastCounted(calls[..|calls| - 1])
  }

  /** An entry shows the answer to the last call that counts. */
  predicate Recorded(calls: seq<Call>, entry: InvocationStatus) {
    && (entry.phase == Succeeded || entry.phase == Failed ==> entry.completed)
    && match LastCounted(calls)
       case None => true
       case Some(call) =>
         if call.answer.AnswerNotImplemented? then false
         else
           && entry.invocationId == call.answer.response.invocationId
           && entry.ociRequestId == call.answer.response.ociRequestId
           && entry.statusCode == call.answer.response.statusCode
           && entry.error == (if call.answer.AnswerError? then call.answer.message else "")
  }

  /** An entry tells the truth about the calls made for its payload. */
  predicate Ledger(calls: seq<Call>, entry: InvocationStatus, retryLimit: int) {
    && Recorded(calls, entry)
    && entry.attempts == Counted(calls) <= retryLimit + 1
    && NothingAfterSuccess(calls)
    && (entry.phase == Succeeded <==> EndsWithSuccess(calls))
  }

  lemma {:induction false} HistoryAppend(log: Log, call: Call, index: int)
    ensures History(log + [call], index) == History(log, index) + (if call.request.index == index then [call] else [])
  {
    assert (log + [call])[..|log|] == log;
  }

  // ---------------------------------------------------------------- one payload, one list

  /** One more call and the entry it leads to. */
  lemma {:induction false} CallLedger(calls: seq<Call>, call: Call, entry: InvocationStatus, next: InvocationStatus, retryLimit: int)
    requires Ledger(calls, entry, retryLimit) && !Finished(entry) && entry.attempts <= retryLimit
    requires next.attempts == entry.attempts + (if call.answer.AnswerNotImplemented? then 0 else 1)
    requires next.phase == Succeeded <==> call.answer.AnswerOk?
    requires if call.answer.AnswerNotImplemented? then next == entry.(phase := next.phase) && next.phase != Failed
             else Recorded([call], next)
    ensures Ledger(calls + [call], next, retryLimit)
  {
    CountedAppend(calls, call);
    assert (calls + [call])[..|calls|] == calls;
  }

  lemma {:induction false} VisitLedger(round: Round, status: InvocationStatus, head: Head, log: Log, index: int)
    requires 0 <= status.index < |round.payloads| && !Finished(status)
    requires index == status.index ==> Ledger(History(log, index), status, round.retryLimit)
    ensures var visit := VisitPayload(round, status, head, log);
            && (index == status.index ==> Ledger(History(visit.log, index), visit.status, round.retryLimit))
            && (index != status.index ==> History(visit.log, index) == History(log, index))
    decreases round.retryLimit + 1 - status.attempts
  {
    if status.attempts < round.retryLimit + 1 {
      var request := Request(round.target, status.index, round.payloads[status.index], "");
      var answer := round.invoke(log, request);
      var call := Call(request, answer);
      HistoryAppend(log, call, index);
      hide Ledger, History;
      if answer.AnswerError? && status.attempts + 1 < round.retryLimit + 1 {
        var observed := Observe(status, answer.response).(error := answer.message);
        if index == status.index {
          CallLedger(History(log, index), call, status, observed, round.retryLimit);
        }
        VisitLedger(round, observed, NoteRequestId(head, answer.response).(lastError := answer.message), log + [call], index);
      } else if index == status.index {
        CallLedger(History(log, index), call, status, VisitPayload(round, status, head, log).status, round.retryLimit);
      }
    }
  }

  predicate Numbered(statuses: seq<InvocationStatus>) {
    forall k :: 0 <= k < |statuses| ==> statuses[k].index == k
  }

  lemma {:induction false} SweepLedger(round: Round, statuses: seq<InvocationStatus>, i: nat, budget: nat, head: Head, log: Log, index: nat)
    requires InRange(statuses, |round.payloads|) && Numbered(statuses)
    requires index < |statuses| ==> Ledger(History(log, index), statuses[index], round.retryLimit)
    ensures var sweep := SweepPayloads(round, statuses, i, budget, head, log);
            && |sweep.statuses| == |statuses| && Numbered(sweep.statuses)
            && (index < |statuses| ==>
                  && sweep.statuses[index].payloadDigest == statuses[index].payloadDigest
                  && Ledger(History(sweep.log, index), sweep.statuses[index], round.retryLimit)
                  && (statuses[index].phase == Succeeded ==>
                        sweep.statuses[index] == statuses[index] && History(sweep.log, index) == History(log, index)))
            && (index >= |statuses| ==> History(sweep.log, index) == History(log, index))
    decreases |statuses| - i
  {
    hide VisitPayload, Ledger, History;
    if i < |statuses| && budget > 0 {
      if !IsRunnable(statuses[i], round.retryLimit) {
        SweepLedger(round, statuses, i + 1, budget, head, log, index);
      } else {
        var running := statuses[i].(phase := Running);
        RunningLedger(History(log, index), statuses[i], round.retryLimit);
        VisitLedger(round, running, head, log, index);
        var visit := VisitPayload(round, running, head, log);
        if !visit.stopped {
          SweepLedger(round, statuses[i := visit.status], i + 1, budget - 1, visit.head, visit.log, index);
        }
      }
    }
  }

  /** Marking an unfinished entry Running keeps its ledger. */
  lemma {:induction false} RunningLedger(calls: seq<Call>, entry: InvocationStatus, retryLimit: int)
    ensures entry.phase != Succeeded && Ledger(calls, entry, retryLimit) ==> Ledger(calls, entry.(phase := Running), retryLimit)
  {
  }

  // ---------------------------------------------------------------- one pass

  /** Payload index is present in the pass, with these bytes and this retry limit. */
  predicate Carries(input: PassInput, index: nat, body: Bytes, retryLimit: int) {
    && index < |input.spec.InlinePayloads()| && input.spec.InlinePayloads()[index] == body
    && retryLimit == (if input.spec.retryLimit < 0 then 0 else input.spec.retryLimit)
  }

  /** The invariant of a run: the entry of the payload, if there is one already, belongs to
      these bytes and keeps a true ledger; if there is none, no call was made. */
  predicate Kept(sum: Bytes -> string, index: nat, body: Bytes, retryLimit: int, statuses: seq<InvocationStatus>, log: Log) {
    && Numbered(statuses)
    && if index < |statuses| then
         && statuses[index].payloadDigest == DigestPayload(sum, body) && statuses[index].phase != Unset
         && Ledger(History(log, index), statuses[index], retryLimit)
       else History(log, index) == []
  }

  lemma {:induction false} SweepKeepsPhaseSet(round: Round, statuses: seq<InvocationStatus>, i: nat, budget: nat, head: Head, log: Log, index: nat)
    requires InRange(statuses, |round.payloads|) && index < |statuses| && statuses[index].phase != Unset
    ensures var sweep := SweepPayloads(round, statuses, i, budget, head, log);
            |sweep.statuses| == |statuses| && sweep.statuses[index].phase != Unset
    decreases |statuses| - i
  {
    if i < |statuses| && budget > 0 {
      if !IsRunnable(statuses[i], round.retryLimit) {
        SweepKeepsPhaseSet(round, statuses, i + 1, budget, head, log, index);
      } else {
        VisitSetsPhase(round, statuses[i].(phase := Running), head, log);
        var visit := VisitPayload(round, statuses[i].(phase := Running), head, log);
        if !visit.stopped {
          SweepKeepsPhaseSet(round, statuses[i := visit.status], i + 1, budget - 1, visit.head, visit.log, index);
        }
      }
    }
  }

  lemma {:induction false} VisitSetsPhase(round: Round, status: InvocationStatus, head: Head, log: Log)
    requires 0 <= status.index < |round.payloads| && status.phase != Unset
    ensures VisitPayload(round, status, head, log).status.phase != Unset
    decreases round.retryLimit + 1 - status.attempts
  {
    if status.attempts < round.retryLimit + 1 {
      var request := Request(round.target, status.index, round.payloads[status.index], "");
      var answer := round.invoke(log, request);
      if answer.AnswerError? {
        VisitSetsPhase(round, Observe(status, answer.response).(error := answer.message),
                       NoteRequestId(head, answer.response).(lastError := answer.message), log + [Call(request, answer)]);
      }
    }
  }

  /** The carry-over keeps the entry of an unchanged payload as it is, and starts a new
      payload with an empty ledger. */
  lemma {:induction false} CarryOverKeeps(sum: Bytes -> string, index: nat, body: Bytes, retryLimit: int,
                       statuses: seq<InvocationStatus>, payloads: seq<Bytes>, log: Log)
    requires Kept(sum, index, body, retryLimit, statuses, log) && retryLimit >= 0
    requires index < |payloads| && payloads[index] == body
    ensures var next := EnsureStatuses(sum, statuses, payloads);
            && Kept(sum, index, body, retryLimit, next, log)
            && (index < |statuses| ==> next[index] == statuses[index])
  {
    ByIndexOfAligned(statuses);
  }

  /** The carry-over exactly, for a list that passes have written: an entry is kept if it was made
      for the same bytes, and any other payload, one that has been edited for instance, starts
      afresh. */
  lemma {:induction false} CarryOverExactly(sum: Bytes -> string, statuses: seq<InvocationStatus>, payloads: seq<Bytes>)
    requires Numbered(statuses) && forall k :: 0 <= k < |statuses| ==> statuses[k].phase != Unset
    ensures var next := EnsureStatuses(sum, statuses, payloads);
            && |next| == |payloads|
            && forall i :: 0 <= i < |payloads| ==>
                 next[i] == if i < |statuses| && statuses[i].payloadDigest == "sha256:" + sum(payloads[i]) then statuses[i]
                            else InvocationStatus(i, "sha256:" + sum(payloads[i]), Pending, 0, "", "", 0, "", false)
  {
    ByIndexOfAligned(statuses);
    ByIndexNumbers(statuses);
  }

  lemma {:induction false} ByIndexNumbers(statuses: seq<InvocationStatus>)
    requires Numbered(statuses)
    ensures forall i :: i in ByIndex(statuses) ==> 0 <= i < |statuses|
  {
    if statuses != [] {
      ByIndexNumbers(statuses[..|statuses| - 1]);
    }
  }

  /** What must not change about a payload that has succeeded. */
  predicate Untouched(index: nat, before: seq<InvocationStatus>, log: Log, after: seq<InvocationStatus>, log': Log) {
    index < |before| && before[index].phase == Succeeded ==>
      index < |after| && after[index] == before[index] && History(log', index) == History(log, index)
  }

  lemma {:induction false} InvokingKeeps(sum: Bytes -> string, round: Round, limit: nat, prepared: JobStatus, index: nat, body: Bytes, log: Log)
    requires InRange(prepared.statuses, |round.payloads|) && index < |prepared.statuses|
    requires Kept(sum, index, body, round.retryLimit, prepared.statuses, log)
    ensures var pass := InvokeAndSummarize(round, limit, prepared, log);
            && Kept(sum, index, body, round.retryLimit, pass.status.statuses, pass.log)
            && Untouched(index, prepared.statuses, log, pass.status.statuses, pass.log)
  {
    hide SweepPayloads, Ledger, History, CountPhase, CountRetries;
    SweepLedger(round, prepared.statuses, 0, limit, HeadOf(prepared), log, index);
    SweepKeepsPhaseSet(round, prepared.statuses, 0, limit, HeadOf(prepared), log, index);
    assert InvokeAndSummarize(round, limit, prepared, log).status.statuses == InvokePrepared(round, limit, prepared, log).statuses;
  }

  lemma {:induction false} PassKeeps(sum: Bytes -> string, input: PassInput, index: nat, body: Bytes, retryLimit: nat, status: JobStatus, log: Log)
    requires Carries(input, index, body, retryLimit)
    requires Kept(sum, index, body, retryLimit, status.statuses, log)
    ensures var pass := ReconcileJob(sum, input, status, log);
            && Kept(sum, index, body, retryLimit, pass.status.statuses, pass.log)
            && Untouched(index, status.statuses, log, pass.status.statuses, pass.log)
  {
    hide InvokeAndSummarize, EnsureStatuses, Kept, History, CountPhase, CountRetries;
    if !IsTerminal(status) && input.spec.functionName != "" && ReadyForInvocation(input.lookup) {
      var payloads := input.spec.InlinePayloads();
      CarryOverKeeps(sum, index, body, retryLimit, status.statuses, payloads, log);
      EnsureStatusesAligned(sum, status.statuses, payloads);
      if input.invoker.Some? {
        InvokingKeeps(sum, RoundOf(input), input.spec.DesiredParallelism(), Prepare(sum, input.generation, payloads, status), index, body, log);
      }
    }
  }

  // ---------------------------------------------------------------- runs

  lemma {:induction false} RunKeeps(sum: Bytes -> string, inputs: seq<PassInput>, index: nat, body: Bytes, retryLimit: nat, world: World)
    requires forall k :: 0 <= k < |inputs| ==> Carries(inputs[k], index, body, retryLimit)
    requires Kept(sum, index, body, retryLimit, world.status.statuses, world.log)
    ensures var end := RunJob(sum, inputs, world);
            && Kept(sum, index, body, retryLimit, end.status.statuses, end.log)
            && Untouched(index, world.status.statuses, world.log, end.status.statuses, end.log)
  {
    hide ReconcileJob, Kept, History;
    if inputs != [] {
      PassKeeps(sum, inputs[0], index, body, retryLimit, world.status, world.log);
      var pass := ReconcileJob(sum, inputs[0], world.status, world.log);
      RunKeeps(sum, inputs[1..], index, body, retryLimit, World(pass.status, pass.log));
    }
  }

  /** The retry budget.  In every run from a fresh job, a payload that is present with the
      same bytes in every pass gets at most retryLimit + 1 counted calls and at most one
      success; no call follows its success; and its entry counts its calls exactly and shows
      the answer to the last one that counts. */
  lemma {:induction false} RetryBudget(sum: Bytes -> string, inputs: seq<PassInput>, index: nat, body: Bytes, retryLimit: nat)
    requires forall k :: 0 <= k < |inputs| ==> Carries(inputs[k], index, body, retryLimit)
    ensures var end := RunJob(sum, inputs, World(FRESH_JOB, []));
            var calls := History(end.log, index);
            && Counted(calls) <= retryLimit + 1
            && Successes(calls) <= 1
            && NothingAfterSuccess(calls)
            && if index < |end.status.statuses| then
                 && Recorded(calls, end.status.statuses[index])
                 && end.status.statuses[index].attempts == Counted(calls)
                 && (end.status.statuses[index].phase == Succeeded <==> Successes(calls) == 1)
               else calls == []
  {
    RunKeeps(sum, inputs, index, body, retryLimit, World(FRESH_JOB, []));
    AtMostOneSuccess(History(RunJob(sum, inputs, World(FRESH_JOB, [])).log, index));
  }

  // ---------------------------------------------------------------- success is final

  /** A visit calls for its own payload only, and not at all without attempts left. */
  lemma {:induction false} VisitHistory(round: Round, status: InvocationStatus, head: Head, log: Log, index: int)
    requires 0 <= status.index < |round.payloads|
    ensures index != status.index || status.attempts >= round.retryLimit + 1 ==>
              History(VisitPayload(round, status, head, log).log, index) == History(log, index)
    decreases round.retryLimit + 1 - status.attempts
  {
    if status.attempts < round.retryLimit + 1 && index != status.index {
      var request := Request(round.target, status.index, round.payloads[status.index], "");
      var answer := round.invoke(log, request);
      HistoryAppend(log, Call(request, answer), index);
      if answer.AnswerError? {
        VisitHistory(round, Observe(status, answer.response).(error := answer.message),
                     NoteRequestId(head, answer.response).(lastError := answer.message), log + [Call(request, answer)], index);
      }
    }
  }

  /** Payload index is present in the pass with these bytes; the retry limit does not matter. */
  predicate Present(input: PassInput, index: nat, body: Bytes) {
    index < |input.spec.InlinePayloads()| && input.spec.InlinePayloads()[index] == body
  }

  /** The entry of the payload, if there is one, belongs to these bytes. */
  predicate Filed(sum: Bytes -> string, index: nat, body: Bytes, statuses: seq<InvocationStatus>) {
    && Numbered(statuses)
    && (index < |statuses| ==> statuses[index].payloadDigest == DigestPayload(sum, body) && statuses[index].phase != Unset)
  }

  lemma {:induction false} SweepSkipsSuccess(round: Round, statuses: seq<InvocationStatus>, i: nat, budget: nat, head: Head, log: Log, index: nat)
    requires InRange(statuses, |round.payloads|) && Numbered(statuses)
    ensures var sweep := SweepPayloads(round, statuses, i, budget, head, log);
            && |sweep.statuses| == |statuses| && Numbered(sweep.statuses)
            && (index < |statuses| ==> sweep.statuses[index].payloadDigest == statuses[index].payloadDigest)
            && Untouched(index, statuses, log, sweep.statuses, sweep.log)
    decreases |statuses| - i
  {
    hide VisitPayload, History;
    if i < |statuses| && budget > 0 {
      if !IsRunnable(statuses[i], round.retryLimit) {
        SweepSkipsSuccess(round, statuses, i + 1, budget, head, log, index);
      } else {
        var running := statuses[i].(phase := Running);
        VisitHistory(round, running, head, log, index);
        var visit := VisitPayload(round, running, head, log);
        if !visit.stopped {
          SweepSkipsSuccess(round, statuses[i := visit.status], i + 1, budget - 1, visit.head, visit.log, index);
        }
      }
    }
  }

  lemma {:induction false} InvokingFiled(sum: Bytes -> string, round: Round, limit: nat, prepared: JobStatus, index: nat, body: Bytes, log: Log)
    requires InRange(prepared.statuses, |round.payloads|) && Filed(sum, index, body, prepared.statuses)
    ensures var pass := InvokeAndSummarize(round, limit, prepared, log);
            && Filed(sum, index, body, pass.status.statuses)
            && Untouched(index, prepared.statuses, log, pass.status.statuses, pass.log)
  {
    hide SweepPayloads, CountPhase, CountRetries, History;
    SweepSkipsSuccess(round, prepared.statuses, 0, limit, HeadOf(prepared), log, index);
    if index < |prepared.statuses| {
      SweepKeepsPhaseSet(round, prepared.statuses, 0, limit, HeadOf(prepared), log, index);
    }
  }

  lemma {:induction false} CarryOverFiled(sum: Bytes -> string, index: nat, body: Bytes, statuses: seq<InvocationStatus>, payloads: seq<Bytes>)
    requires Filed(sum, index, body, statuses) && index < |payloads| && payloads[index] == body
    ensures var next := EnsureStatuses(sum, statuses, payloads);
            && Aligned(sum, next, payloads) && Filed(sum, index, body, next)
            && (index < |statuses| ==> next[index] == statuses[index])
  {
    EnsureStatusesAligned(sum, statuses, payloads);
    ByIndexOfAligned(statuses);
  }

  lemma {:induction false} PassFiled(sum: Bytes -> string, input: PassInput, index: nat, body: Bytes, status: JobStatus, log: Log)
    requires Present(input, index, body) && Filed(sum, index, body, status.statuses)
    ensures var pass := ReconcileJob(sum, input, status, log);
            && Filed(sum, index, body, pass.status.statuses)
            && Untouched(index, status.statuses, log, pass.status.statuses, pass.log)
  {
    hide InvokeAndSummarize, EnsureStatuses, Filed, History, CountPhase, CountRetries;
    if !IsTerminal(status) && input.spec.functionName != "" && ReadyForInvocation(input.lookup) {
      var payloads := input.spec.InlinePayloads();
      CarryOverFiled(sum, index, body, status.statuses, payloads);
      if input.invoker.Some? {
        InvokingFiled(sum, RoundOf(input), input.spec.DesiredParallelism(), Prepare(sum, input.generation, payloads, status), index, body, log);
      }
    }
  }

  lemma {:induction false} RunFiled(sum: Bytes -> string, inputs: seq<PassInput>, index: nat, body: Bytes, world: World)
    requires forall k :: 0 <= k < |inputs| ==> Present(inputs[k], index, body)
    requires Filed(sum, index, body, world.status.statuses)
    ensures var end := RunJob(sum, inputs, world);
            && Filed(sum, index, body, end.status.statuses)
            && Untouched(index, world.status.statuses, world.log, end.status.statuses, end.log)
  {
    hide ReconcileJob, Filed, History, Present;
    if inputs != [] {
      PassFiled(sum, inputs[0], index, body, world.status, world.log);
      var pass := ReconcileJob(sum, inputs[0], world.status, world.log);
      RunFiled(sum, inputs[1..], index, body, World(pass.status, pass.log));
    }
  }

  /** Edits elsewhere.  Once a payload has succeeded, later passes that still carry it
      unchanged neither touch its entry nor call the Function for it, whatever they do to the
      other payloads and to the retry limit. */
  lemma {:induction false} SuccessIsFinal(sum: Bytes -> string, early: seq<PassInput>, late: seq<PassInput>, index: nat, body: Bytes)
    requires forall k :: 0 <= k < |early| ==> Present(early[k], index, body)
    requires forall k :: 0 <= k < |late| ==> Present(late[k], index, body)
    ensures var middle := RunJob(sum, early, World(FRESH_JOB, []));
            var end := RunJob(sum, late, middle);
            Untouched(index, middle.status.statuses, middle.log, end.status.statuses, end.log)
  {
    hide RunJob, Present;
    RunFiled(sum, early, index, body, World(FRESH_JOB, []));
    RunFiled(sum, late, index, body, RunJob(sum, early, World(FRESH_JOB, [])));
  }
}
