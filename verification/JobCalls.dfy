/** What the calls of a FunctionJob send, and what the job records of the answers: over whole
    runs, read off the log and the inputs of the passes. */
module JobCalls {
  import opened Invocations
  import opened FunctionJobs
  import opened JobProgress
  import opened JobBudget
  import opened JobAccounts

  // ---------------------------------------------------------------- what is sent

  /** The payload a job has at an index: of its list, or else its single payload, or none. */
  predicate PayloadAt(spec: JobSpec, index: int, body: Bytes) {
    if |spec.payloads| > 0 then 0 <= index < |spec.payloads| && body == spec.payloads[index]
    else index == 0 && body == (if spec.payload.Some? then spec.payload.value else [])
  }

  /** A call that a pass makes: to the ready Function it has read, with a payload of its spec,
      answered by its invoker. */
  ghost predicate MadeBy(input: PassInput, before: Log, call: Call) {
    && input.spec.functionName != "" && input.invoker.Some?
    && input.lookup.Found? && input.lookup.ready && input.lookup.target == call.request.target
    && call.request.target.functionOCID != "" && call.request.target.invokeEndpoint != ""
    && PayloadAt(input.spec, call.request.index, call.request.body)
    && call.answer == input.invoker.value(before, call.request)
  }

  /** The log only grows, and each new call is right for the round. */
  ghost predicate Extends(round: Round, log: Log, longer: Log) {
    && |log| <= |longer| && longer[..|log|] == log
    && forall k :: |log| <= k < |longer| ==> RightCall(round, longer[..k], longer[k])
  }

  ghost predicate RightCall(round: Round, before: Log, call: Call) {
    && 0 <= call.request.index < |round.payloads| && call.request.body == round.payloads[call.request.index]
    && call.request.target == round.target
    && call.answer == round.invoke(before, call.request)
  }

  lemma {:induction false} ExtendsFurther(round: Round, a: Log, b: Log, c: Log)
    requires Extends(round, a, b) && Extends(round, b, c)
    ensures Extends(round, a, c)
  {
    assert c[..|a|] == c[..|b|][..|a|];
    forall k | |a| <= k < |c| ensures RightCall(round, c[..k], c[k]) {
      if k < |b| {
        assert c[..k] == c[..|b|][..k] == b[..k];
        assert c[k] == c[..|b|][k] == b[k];
      }
    }
  }

  lemma {:induction false} ExtendsByOne(round: Round, log: Log, call: Call)
    requires RightCall(round, log, call)
    ensures Extends(round, log, log + [call])
  {
    assert (log + [call])[..|log|] == log;
  }

  /** All new calls of a visit are for its own payload. */
  predicate CallsOnly(log: Log, longer: Log, index: int) {
    forall k :: |log| <= k < |longer| ==> longer[k].request.index == index
  }

  lemma {:induction false} VisitSends(round: Round, status: InvocationStatus, head: Head, log: Log)
    requires 0 <= status.index < |round.payloads|
    ensures var longer := VisitPayload(round, status, head, log).log;
            Extends(round, log, longer) && CallsOnly(log, longer, status.index)
    decreases round.retryLimit + 1 - status.attempts
  {
    var longer := VisitPayload(round, status, head, log).log;
    if status.attempts < round.retryLimit + 1 {
      var request := Request(round.target, status.index, round.payloads[status.index], "");
      var call := Call(request, round.invoke(log, request));
      ExtendsByOne(round, log, call);
      if call.answer.AnswerError? && status.attempts + 1 < round.retryLimit + 1 {
        var observed := Observe(status, call.answer.response).(error := call.answer.message);
        var head' := NoteRequestId(head, call.answer.response).(lastError := call.answer.message);
        VisitSends(round, observed, head', log + [call]);
        hide RightCall;
        ExtendsFurther(round, log, log + [call], longer);
        FirstOfLonger(log, call, longer);
      }
    }
  }

  lemma {:induction false} FirstOfLonger(log: Log, call: Call, longer: Log)
    requires |log| < |longer| && longer[..|log| + 1] == log + [call]
    ensures longer[|log|] == call
  {
    assert longer[..|log| + 1][|log|] == call;
  }

  /** The new calls come in the order of the payloads. */
  predicate InOrder(log: Log, longer: Log, least: int) {
    && (forall k :: |log| <= k < |longer| ==> longer[k].request.index >= least)
    && forall j, k :: |log| <= j <= k < |longer| ==> longer[j].request.index <= longer[k].request.index
  }

  lemma {:induction false} OrderedFurther(a: Log, b: Log, c: Log, index: int)
    requires |a| <= |b| <= |c| && c[..|b|] == b && CallsOnly(a, b, index) && InOrder(b, c, index + 1)
    ensures InOrder(a, c, index)
  {
    assert forall k :: |a| <= k < |b| ==> c[k] == c[..|b|][k];
  }

  lemma {:induction false} SweepSends(round: Round, statuses: seq<InvocationStatus>, i: nat, budget: nat, head: Head, log: Log)
    requires InRange(statuses, |round.payloads|) && Numbered(statuses)
    ensures var longer := SweepPayloads(round, statuses, i, budget, head, log).log;
            Extends(round, log, longer) && InOrder(log, longer, i)
    decreases |statuses| - i
  {
    hide VisitPayload, RightCall;
    assert log[..|log|] == log;
    if i < |statuses| && budget > 0 {
      if !IsRunnable(statuses[i], round.retryLimit) {
        SweepSends(round, statuses, i + 1, budget, head, log);
      } else {
        var running := statuses[i].(phase := Running);
        VisitSends(round, running, head, log);
        var visit := VisitPayload(round, running, head, log);
        if !visit.stopped {
          SweepSends(round, statuses[i := visit.status], i + 1, budget - 1, visit.head, visit.log);
          var longer := SweepPayloads(round, statuses, i, budget, head, log).log;
          ExtendsFurther(round, log, visit.log, longer);
          OrderedFurther(log, visit.log, longer, i);
        }
      }
    }
  }

  /** Every call in the log from position |before| on is made by the pass. */
  ghost predicate PassMade(input: PassInput, before: Log, after: Log) {
    && before <= after
    && forall k :: |before| <= k < |after| ==> MadeBy(input, after[..k], after[k])
  }

  /** What one pass sends: its calls go to the Function it has read, each with the payload of
      its index, in the order of the payloads. */
  lemma {:induction false} PassSends(sum: Bytes -> string, input: PassInput, status: JobStatus, log: Log)
    ensures var after := ReconcileJob(sum, input, status, log).log;
            PassMade(input, log, after) && InOrder(log, after, 0)
  {
    hide SweepPayloads, EnsureStatuses, CountPhase, CountRetries;
    if !IsTerminal(status) && input.spec.functionName != "" && ReadyForInvocation(input.lookup) && input.invoker.Some? {
      var payloads := input.spec.InlinePayloads();
      EnsureStatusesAligned(sum, status.statuses, payloads);
      var prepared := Prepare(sum, input.generation, payloads, status);
      SweepSends(RoundOf(input), prepared.statuses, 0, input.spec.DesiredParallelism(), HeadOf(prepared), log);
    }
  }

  ghost predicate MadeByOne(inputs: seq<PassInput>, before: Log, call: Call) {
    exists p :: 0 <= p < |inputs| && MadeBy(inputs[p], before, call)
  }

  lemma {:induction false} RunExtends(sum: Bytes -> string, inputs: seq<PassInput>, world: World)
    ensures var end := RunJob(sum, inputs, world).log;
            && world.log <= end
            && forall k :: |world.log| <= k < |end| ==> MadeByOne(inputs, end[..k], end[k])
  {
    hide ReconcileJob, MadeBy, InOrder;
    if inputs != [] {
      PassSends(sum, inputs[0], world.status, world.log);
      var pass := ReconcileJob(sum, inputs[0], world.status, world.log);
      RunExtends(sum, inputs[1..], World(pass.status, pass.log));
      var end := RunJob(sum, inputs, world).log;
      forall k | |world.log| <= k < |end| ensures MadeByOne(inputs, end[..k], end[k]) {
        if k < |pass.log| {
          assert end[..k] == pass.log[..k] && end[k] == pass.log[k];
          assert MadeBy(inputs[0], end[..k], end[k]);
        } else {
          var p :| 0 <= p < |inputs[1..]| && MadeBy(inputs[1..][p], end[..k], end[k]);
          assert inputs[p + 1] == inputs[1..][p];
        }
      }
    }
  }

  /** What a run sends.  Over every run from a fresh job each call in the log is made by one of
      the passes: to the ready Function that the pass has read, with the bytes that its spec has
      at the index of the call, and answered by its invoker. */
  lemma {:induction false} CallsSendPayloads(sum: Bytes -> string, inputs: seq<PassInput>)
    ensures var log := RunJob(sum, inputs, World(FRESH_JOB, [])).log;
            forall k :: 0 <= k < |log| ==> MadeByOne(inputs, log[..k], log[k])
  {
    hide RunJob, MadeByOne;
    RunExtends(sum, inputs, World(FRESH_JOB, []));
  }

  lemma {:induction false} InHistory(log: Log, index: int)
    ensures forall c :: c in History(log, index) ==> c in log && c.request.index == index
  {
    if log != [] {
      InHistory(log[..|log| - 1], index);
    }
  }

  lemma {:induction false} SomeSuccess(calls: seq<Call>)
    requires Successes(calls) > 0
    ensures exists c :: c in calls && c.answer.AnswerOk?
  {
    var n := |calls| - 1;
    if !calls[n].answer.AnswerOk? {
      SomeSuccess(calls[..n]);
      var c :| c in calls[..n] && c.answer.AnswerOk?;
      assert c in calls;
    } else {
      assert calls[n] in calls;
    }
  }

  lemma {:induction false} PresentIsAt(input: PassInput, index: nat, body: Bytes)
    requires Present(input, index, body)
    ensures forall sent :: PayloadAt(input.spec, index, sent) ==> sent == body
  {
  }

  /** A payload that is reported Succeeded has been sent, with its own bytes, and answered. */
  lemma {:induction false} SuccessWasSent(sum: Bytes -> string, inputs: seq<PassInput>, index: nat, body: Bytes, retryLimit: nat)
    requires forall k :: 0 <= k < |inputs| ==> Carries(inputs[k], index, body, retryLimit)
    ensures var end := RunJob(sum, inputs, World(FRESH_JOB, []));
            index < |end.status.statuses| && end.status.statuses[index].phase == Succeeded ==>
              exists c :: c in end.log && c.request.index == index && c.request.body == body && c.answer.AnswerOk?
  {
    hide RunJob, History, Successes, Counted, MadeBy;
    RetryBudget(sum, inputs, index, body, retryLimit);
    CallsSendPayloads(sum, inputs);
    var end := RunJob(sum, inputs, World(FRESH_JOB, []));
    if index < |end.status.statuses| && end.status.statuses[index].phase == Succeeded {
      SomeSuccess(History(end.log, index));
      InHistory(end.log, index);
      var c :| c in History(end.log, index) && c.answer.AnswerOk?;
      var k :| 0 <= k < |end.log| && end.log[k] == c;
      assert MadeByOne(inputs, end.log[..k], end.log[k]);
      var p :| 0 <= p < |inputs| && MadeBy(inputs[p], end.log[..k], end.log[k]);
      CarriedBody(inputs[p], index, body, retryLimit, end.log[..k], c);
    }
  }

  lemma {:induction false} CarriedBody(input: PassInput, index: nat, body: Bytes, retryLimit: nat, before: Log, call: Call)
    requires Carries(input, index, body, retryLimit) && MadeBy(input, before, call) && call.request.index == index
    ensures call.request.body == body
  {
    PresentIsAt(input, index, body);
  }

  // ---------------------------------------------------------------- what is recorded of the answers

  /** The message of the last error answered from position from on, if any. */
  function LastMessage(log: Log, from: nat, otherwise: string): string {
    if |log| <= from then otherwise
    else if log[|log| - 1].answer.AnswerError? then log[|log| - 1].answer.message
    else LastMessage(log[..|log| - 1], from, otherwise)
  }

  /** The request id of the last answer that had one. */
  function LastRequestId(log: Log): string {
    if log == [] then ""
    else
      var answer := log[|log| - 1].answer;
      if !answer.AnswerNotImplemented? && answer.response.ociRequestId != "" then answer.response.ociRequestId
      else LastRequestId(log[..|log| - 1])
  }

  /** The two job-level fields agree with the log. */
  predicate HeadAgrees(head: Head, log: Log, from: nat, otherwise: string) {
    head.lastError == LastMessage(log, from, otherwise) && head.lastOciRequestId == LastRequestId(log)
  }

  lemma {:induction false} VisitHead(round: Round, status: InvocationStatus, head: Head, log: Log, from: nat, otherwise: string)
    requires 0 <= status.index < |round.payloads| && from <= |log| && HeadAgrees(head, log, from, otherwise)
    ensures var visit := VisitPayload(round, status, head, log);
            from <= |visit.log| && HeadAgrees(visit.head, visit.log, from, otherwise)
    decreases round.retryLimit + 1 - status.attempts
  {
    if status.attempts < round.retryLimit + 1 {
      var request := Request(round.target, status.index, round.payloads[status.index], "");
      var answer := round.invoke(log, request);
      var log' := log + [Call(request, answer)];
      assert log'[..|log'| - 1] == log;
      if answer.AnswerError? && status.attempts + 1 < round.retryLimit + 1 {
        VisitHead(round, Observe(status, answer.response).(error := answer.message),
                  NoteRequestId(head, answer.response).(lastError := answer.message), log', from, otherwise);
      }
    }
  }

  lemma {:induction false} SweepHead(
      round: Round, statuses: seq<InvocationStatus>, i: nat, budget: nat, head: Head, log: Log, from: nat, otherwise: string)
    requires InRange(statuses, |round.payloads|) && from <= |log| && HeadAgrees(head, log, from, otherwise)
    ensures var sweep := SweepPayloads(round, statuses, i, budget, head, log);
            from <= |sweep.log| && HeadAgrees(sweep.head, sweep.log, from, otherwise)
    decreases |statuses| - i
  {
    hide VisitPayload, HeadAgrees;
    if i < |statuses| && budget > 0 {
      if !IsRunnable(statuses[i], round.retryLimit) {
        SweepHead(round, statuses, i + 1, budget, head, log, from, otherwise);
      } else {
        var running := statuses[i].(phase := Running);
        VisitHead(round, running, head, log, from, otherwise);
        var visit := VisitPayload(round, running, head, log);
        if !visit.stopped {
          SweepHead(round, statuses[i := visit.status], i + 1, budget - 1, visit.head, visit.log, from, otherwise);
        }
      }
    }
  }

  /** One pass keeps the last request id true to the log; if it completes, its last error is
      that of its last failed call, or the one there was, and none when the job has succeeded. */
  lemma {:induction false} PassRecords(sum: Bytes -> string, input: PassInput, status: JobStatus, log: Log)
    requires status.lastOciRequestId == LastRequestId(log)
    ensures var pass := ReconcileJob(sum, input, status, log);
            && pass.status.lastOciRequestId == LastRequestId(pass.log)
            && (Invokes(input) && !IsTerminal(status) ==>
                  pass.status.lastError == if pass.status.phase == Succeeded then "" else LastMessage(pass.log, |log|, status.lastError))
  {
    hide SweepPayloads, EnsureStatuses, CountPhase, CountRetries, LastRequestId, LastMessage, Implemented, HasRunnable;
    if !IsTerminal(status) && input.spec.functionName != "" && ReadyForInvocation(input.lookup) && input.invoker.Some? {
      var payloads := input.spec.InlinePayloads();
      EnsureStatusesAligned(sum, status.statuses, payloads);
      var prepared := Prepare(sum, input.generation, payloads, status);
      NothingSince(log, status.lastError);
      SweepHead(RoundOf(input), prepared.statuses, 0, input.spec.DesiredParallelism(), HeadOf(prepared), log, |log|, status.lastError);
      InvokingRecords(RoundOf(input), input.spec.DesiredParallelism(), prepared, log, status.lastError);
      if Implemented(input.invoker.value) {
        ImplementedNeverStops(RoundOf(input), prepared.statuses, 0, input.spec.DesiredParallelism(), HeadOf(prepared), log);
      }
    }
  }

  lemma {:induction false} NothingSince(log: Log, otherwise: string)
    ensures LastMessage(log, |log|, otherwise) == otherwise
  {
  }

  lemma {:induction false} InvokingRecords(round: Round, limit: nat, prepared: JobStatus, log: Log, otherwise: string)
    requires InRange(prepared.statuses, |round.payloads|) && |round.payloads| > 0
    requires var sweep := InvokePrepared(round, limit, prepared, log); HeadAgrees(sweep.head, sweep.log, |log|, otherwise)
    ensures var pass := InvokeAndSummarize(round, limit, prepared, log);
            && pass.status.lastOciRequestId == LastRequestId(pass.log)
            && (!InvokePrepared(round, limit, prepared, log).stopped ==>
                  pass.status.lastError == if pass.status.phase == Succeeded then "" else LastMessage(pass.log, |log|, otherwise))
  {
    hide SweepPayloads, CountPhase, CountRetries, LastRequestId, LastMessage, HasRunnable;
  }

  /** Over every run the job's last request id is the last one that was answered. */
  lemma {:induction false} LastRequestIdIsLast(sum: Bytes -> string, inputs: seq<PassInput>, world: World)
    requires world.status.lastOciRequestId == LastRequestId(world.log)
    ensures var end := RunJob(sum, inputs, world); end.status.lastOciRequestId == LastRequestId(end.log)
  {
    hide ReconcileJob, LastRequestId, LastMessage;
    if inputs != [] {
      PassRecords(sum, inputs[0], world.status, world.log);
      var pass := ReconcileJob(sum, inputs[0], world.status, world.log);
      LastRequestIdIsLast(sum, inputs[1..], World(pass.status, pass.log));
    }
  }

  // ---------------------------------------------------------------- what a pass reports

  /** Invoking changes neither what the pass has seen nor what it has resolved. */
  lemma {:induction false} InvokingReports(round: Round, limit: nat, prepared: JobStatus, log: Log)
    requires InRange(prepared.statuses, |round.payloads|)
    ensures var after := InvokeAndSummarize(round, limit, prepared, log).status;
            && after.observedGeneration == prepared.observedGeneration && after.started == prepared.started
            && after.conditions.resolved == prepared.conditions.resolved
            && (!prepared.completed ==> (after.completed <==> IsTerminal(after)))
  {
    hide InvokePrepared, CountPhase, CountRetries, HasRunnable;
  }

  lemma {:induction false} PreparedReports(sum: Bytes -> string, generation: int, payloads: seq<Bytes>, status: JobStatus)
    ensures var prepared := Prepare(sum, generation, payloads, status);
            && prepared.observedGeneration == generation && prepared.started && prepared.completed == status.completed
            && prepared.conditions.resolved == Yes("FunctionReady")
            && Aligned(sum, prepared.statuses, payloads) && InRange(prepared.statuses, |payloads|)
  {
    hide CountPhase, CountRetries;
    EnsureStatusesAligned(sum, status.statuses, payloads);
  }

  /** Of a job that is still open a pass reports what it found: which generation it has seen,
      whether the Function can be invoked, and with which phase and message it stops short. */
  lemma {:induction false} PassReports(sum: Bytes -> string, input: PassInput, status: JobStatus, log: Log)
    requires !IsTerminal(status) && input.spec.functionName != "" && !input.lookup.LookupFailed?
    ensures var pass := ReconcileJob(sum, input, status, log);
            var after := pass.status;
            && (!ReadyForInvocation(input.lookup) || input.invoker.None? ==> pass.outcome == Done && pass.log == log)
            && after.observedGeneration == input.generation && after.started
            && Says(after.conditions.resolved,
                    input.lookup.Found? && input.lookup.ready && input.lookup.target.functionOCID != "" && input.lookup.target.invokeEndpoint != "")
            && (input.lookup.NotFound? ==> after.phase == Pending && after.active == 0)
            && (input.lookup.Found? && !ReadyForInvocation(input.lookup) ==>
                  after.phase == Failed && after.active == 0 && after.lastError == input.lookup.notReadyMessage)
            && (ReadyForInvocation(input.lookup) && input.invoker.None? ==>
                  after.phase == Pending && after.active == 0 && after.lastError == "invoker is not configured")
  {
    hide Prepare, InvokeAndSummarize;
    PreparedReports(sum, input.generation, input.spec.InlinePayloads(), status);
    if ReadyForInvocation(input.lookup) && input.invoker.Some? {
      InvokingReports(RoundOf(input), input.spec.DesiredParallelism(), Prepare(sum, input.generation, input.spec.InlinePayloads(), status), log);
    }
  }

  predicate BecauseOf(condition: Option<Condition>, reason: string) { condition == Some(Condition(true, reason)) }

  /** The reason of the condition that is true says why the pass has stopped short. */
  lemma {:induction false} ReasonsToStop(sum: Bytes -> string, input: PassInput, status: JobStatus, log: Log)
    requires !IsTerminal(status)
    ensures var after := ReconcileJob(sum, input, status, log).status.conditions;
            && (input.spec.functionName == "" ==> BecauseOf(after.failed, "InvalidFunctionRef"))
            && (input.spec.functionName != "" && input.lookup.NotFound? ==>
                  BecauseOf(after.pending, "FunctionNotFound") && after.resolved == No("FunctionNotFound"))
            && (input.spec.functionName != "" && input.lookup.Found? && !ReadyForInvocation(input.lookup) ==>
                  BecauseOf(after.failed, "FunctionNotReady") && after.resolved == No("FunctionNotReady"))
            && (input.spec.functionName != "" && ReadyForInvocation(input.lookup) && input.invoker.None? ==>
                  BecauseOf(after.pending, "InvokerNotConfigured") && BecauseOf(after.resolved, "FunctionReady"))
  {
    hide InvokeAndSummarize, Prepare;
    PreparedReports(sum, input.generation, input.spec.InlinePayloads(), status);
  }

  /** And of a pass that completes, how it has ended. */
  lemma {:induction false} ReasonsAtTheEnd(sum: Bytes -> string, input: PassInput, status: JobStatus, log: Log)
    requires Invokes(input) && !IsTerminal(status)
    ensures var after := ReconcileJob(sum, input, status, log).status;
            && (after.phase == Succeeded ==> BecauseOf(after.conditions.complete, "AllInvocationsSucceeded"))
            && (after.phase == Failed ==> BecauseOf(after.conditions.failed, "InvocationFailed"))
            && (after.phase == Running ==> BecauseOf(after.conditions.running, "PayloadsRemaining"))
  {
    hide SweepPayloads, Prepare, CountPhase, CountRetries, Implemented, HasRunnable;
    PreparedReports(sum, input.generation, input.spec.InlinePayloads(), status);
    var prepared := Prepare(sum, input.generation, input.spec.InlinePayloads(), status);
    ImplementedNeverStops(RoundOf(input), prepared.statuses, 0, input.spec.DesiredParallelism(), HeadOf(prepared), log);
  }

  /** A pass that finds the invoker not implemented waits, and does not ask to be run again. */
  lemma {:induction false} NotImplementedPass(sum: Bytes -> string, input: PassInput, status: JobStatus, log: Log)
    ensures var pass := ReconcileJob(sum, input, status, log);
            |pass.log| > |log| && pass.log[|pass.log| - 1].answer.AnswerNotImplemented? ==>
              && pass.outcome == Done && pass.status.phase == Pending && pass.status.active == 0
              && pass.status.lastError == "invoker is not configured"
  {
    hide SweepPayloads, Prepare, Finish, HasRunnable;
    var pass := ReconcileJob(sum, input, status, log);
    if |pass.log| > |log| && pass.log[|pass.log| - 1].answer.AnswerNotImplemented? {
      PreparedReports(sum, input.generation, input.spec.InlinePayloads(), status);
      var prepared := Prepare(sum, input.generation, input.spec.InlinePayloads(), status);
      StoppedSweep(RoundOf(input), prepared.statuses, 0, input.spec.DesiredParallelism(), HeadOf(prepared), log);
    }
  }

  lemma {:induction false} StoppedVisit(round: Round, status: InvocationStatus, head: Head, log: Log)
    requires 0 <= status.index < |round.payloads|
    ensures var visit := VisitPayload(round, status, head, log);
            |visit.log| > |log| && visit.log[|visit.log| - 1].answer.AnswerNotImplemented? ==> visit.stopped
    decreases round.retryLimit + 1 - status.attempts
  {
    if status.attempts < round.retryLimit + 1 {
      var request := Request(round.target, status.index, round.payloads[status.index], "");
      var answer := round.invoke(log, request);
      var log' := log + [Call(request, answer)];
      if answer.AnswerError? && status.attempts + 1 < round.retryLimit + 1 {
        var observed := Observe(status, answer.response).(error := answer.message);
        var head' := NoteRequestId(head, answer.response).(lastError := answer.message);
        VisitSends(round, observed, head', log');
        StoppedVisit(round, observed, head', log');
      }
    }
  }

  lemma {:induction false} StoppedSweep(round: Round, statuses: seq<InvocationStatus>, i: nat, budget: nat, head: Head, log: Log)
    requires InRange(statuses, |round.payloads|) && Numbered(statuses)
    ensures var sweep := SweepPayloads(round, statuses, i, budget, head, log);
            |sweep.log| > |log| && sweep.log[|sweep.log| - 1].answer.AnswerNotImplemented? ==> sweep.stopped
    decreases |statuses| - i
  {
    hide VisitPayload, RightCall;
    if i < |statuses| && budget > 0 {
      if !IsRunnable(statuses[i], round.retryLimit) {
        StoppedSweep(round, statuses, i + 1, budget, head, log);
      } else {
        var running := statuses[i].(phase := Running);
        VisitSends(round, running, head, log);
        StoppedVisit(round, running, head, log);
        var visit := VisitPayload(round, running, head, log);
        if !visit.stopped {
          SweepSends(round, statuses[i := visit.status], i + 1, budget - 1, visit.head, visit.log);
          StoppedSweep(round, statuses[i := visit.status], i + 1, budget - 1, visit.head, visit.log);
        }
      }
    }
  }

  /** A parallelism below 1 counts as 1. */
  lemma {:induction false} ParallelismIsAtLeastOne(sum: Bytes -> string, input: PassInput, status: JobStatus, log: Log)
    requires input.spec.parallelism < 1
    ensures ReconcileJob(sum, input, status, log) == ReconcileJob(sum, WithParallelism(input, 1), status, log)
  {
    hide InvokeAndSummarize, Prepare;
    PreparedReports(sum, input.generation, input.spec.InlinePayloads(), status);
    assert WithParallelism(input, 1).spec.InlinePayloads() == input.spec.InlinePayloads();
    assert WithParallelism(input, 1).spec.DesiredRetryLimit() == input.spec.DesiredRetryLimit();
  }

  /** A job without a Function's name fails, one whose Function cannot be read is left alone;
      neither calls anybody. */
  lemma {:induction false} UnreadablePass(sum: Bytes -> string, input: PassInput, status: JobStatus, log: Log)
    requires !IsTerminal(status)
    ensures var pass := ReconcileJob(sum, input, status, log);
            && (input.spec.functionName == "" ==> pass.status.phase == Failed && pass.outcome == Done && pass.log == log)
            && (pass.outcome == Error <==> input.spec.functionName != "" && input.lookup.LookupFailed?)
            && (pass.outcome == Error ==> pass.status == status && pass.log == log)
  {
    hide InvokePrepared, Prepare, Finish, MarkInvokerNotConfigured, HasRunnable;
    PreparedReports(sum, input.generation, input.spec.InlinePayloads(), status);
  }

  /** Over every run the completion time is set exactly while the job is terminal. */
  lemma {:induction false} CompletedExactlyWhenTerminal(sum: Bytes -> string, inputs: seq<PassInput>, world: World)
    requires world.status.completed <==> IsTerminal(world.status)
    ensures var end := RunJob(sum, inputs, world).status; end.completed <==> IsTerminal(end)
  {
    hide ReconcileJob;
    if inputs != [] {
      PassCompletes(sum, inputs[0], world.status, world.log);
      var pass := ReconcileJob(sum, inputs[0], world.status, world.log);
      CompletedExactlyWhenTerminal(sum, inputs[1..], World(pass.status, pass.log));
    }
  }

  lemma {:induction false} PassCompletes(sum: Bytes -> string, input: PassInput, status: JobStatus, log: Log)
    requires status.completed <==> IsTerminal(status)
    ensures var after := ReconcileJob(sum, input, status, log).status; after.completed <==> IsTerminal(after)
  {
    hide Prepare, InvokeAndSummarize;
    PreparedReports(sum, input.generation, input.spec.InlinePayloads(), status);
    if ReadyForInvocation(input.lookup) && input.invoker.Some? {
      InvokingReports(RoundOf(input), input.spec.DesiredParallelism(), Prepare(sum, input.generation, input.spec.InlinePayloads(), status), log);
    }
  }
}
