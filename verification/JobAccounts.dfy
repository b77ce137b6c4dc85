/** What the aggregate fields of a FunctionJob say about the calls that were made, and when
    a job can fail to finish at all. */
module JobAccounts {
  import opened Invocations
  import opened FunctionJobs
  import opened JobProgress
  import opened JobBudget

  // ---------------------------------------------------------------- retries

  function TotalAttempts(statuses: seq<InvocationStatus>): int {
    if statuses == [] then 0 else TotalAttempts(statuses[..|statuses| - 1]) + statuses[|statuses| - 1].attempts
  }

  /** Payloads that were called at all. */
  function CountAttempted(statuses: seq<InvocationStatus>): nat {
    if statuses == [] then 0
    else CountAttempted(statuses[..|statuses| - 1]) + (if statuses[|statuses| - 1].attempts >= 1 then 1 else 0)
  }

  predicate Nonnegative(statuses: seq<InvocationStatus>) {
    forall k :: 0 <= k < |statuses| ==> statuses[k].attempts >= 0
  }

  lemma {:induction false} RetriesAreExtraAttempts(statuses: seq<InvocationStatus>)
    requires Nonnegative(statuses)
    ensures CountRetries(statuses) == TotalAttempts(statuses) - CountAttempted(statuses)
  {
    if statuses != [] {
      RetriesAreExtraAttempts(statuses[..|statuses| - 1]);
    }
  }

  lemma {:induction false} TotalOfUpdate(statuses: seq<InvocationStatus>, i: nat, entry: InvocationStatus)
    requires i < |statuses|
    ensures TotalAttempts(statuses[i := entry]) == TotalAttempts(statuses) - statuses[i].attempts + entry.attempts
  {
    var n := |statuses| - 1;
    if i == n {
      assert statuses[i := entry][..n] == statuses[..n];
    } else {
      assert statuses[i := entry][..n] == statuses[..n][i := entry];
      TotalOfUpdate(statuses[..n], i, entry);
    }
  }

  lemma {:induction false} VisitTotal(round: Round, status: InvocationStatus, head: Head, log: Log)
    requires 0 <= status.index < |round.payloads|
    ensures var visit := VisitPayload(round, status, head, log);
            && visit.status.attempts - status.attempts == Counted(visit.log) - Counted(log)
            && visit.status.attempts >= status.attempts
    decreases round.retryLimit + 1 - status.attempts
  {
    if status.attempts < round.retryLimit + 1 {
      var request := Request(round.target, status.index, round.payloads[status.index], "");
      var answer := round.invoke(log, request);
      CountedAppend(log, Call(request, answer));
      if answer.AnswerError? {
        VisitTotal(round, Observe(status, answer.response).(error := answer.message),
                   NoteRequestId(head, answer.response).(lastError := answer.message), log + [Call(request, answer)]);
      }
    }
  }

  lemma {:induction false} SweepTotal(round: Round, statuses: seq<InvocationStatus>, i: nat, budget: nat, head: Head, log: Log)
    requires InRange(statuses, |round.payloads|) && Nonnegative(statuses)
    ensures var sweep := SweepPayloads(round, statuses, i, budget, head, log);
            && TotalAttempts(sweep.statuses) - TotalAttempts(statuses) == Counted(sweep.log) - Counted(log)
            && Nonnegative(sweep.statuses)
    decreases |statuses| - i
  {
    hide VisitPayload;
    if i < |statuses| && budget > 0 {
      if !IsRunnable(statuses[i], round.retryLimit) {
        SweepTotal(round, statuses, i + 1, budget, head, log);
      } else {
        VisitTotal(round, statuses[i].(phase := Running), head, log);
        var visit := VisitPayload(round, statuses[i].(phase := Running), head, log);
        TotalOfUpdate(statuses, i, visit.status);
        if !visit.stopped {
          SweepTotal(round, statuses[i := visit.status], i + 1, budget - 1, visit.head, visit.log);
        }
      }
    }
  }

  lemma {:induction false} FreshTotal(statuses: seq<InvocationStatus>)
    requires forall k :: 0 <= k < |statuses| ==> statuses[k].attempts == 0
    ensures TotalAttempts(statuses) == 0
  {
    if statuses != [] {
      FreshTotal(statuses[..|statuses| - 1]);
    }
  }

  /** The books balance: the list is empty or made for these payloads, and its attempts are
      exactly the counted calls. */
  predicate Balanced(sum: Bytes -> string, payloads: seq<Bytes>, statuses: seq<InvocationStatus>, log: Log) {
    && (statuses == [] || Aligned(sum, statuses, payloads))
    && Nonnegative(statuses) && TotalAttempts(statuses) == Counted(log)
  }

  lemma {:induction false} CarryOverBalances(sum: Bytes -> string, payloads: seq<Bytes>, statuses: seq<InvocationStatus>, log: Log)
    requires Balanced(sum, payloads, statuses, log)
    ensures Balanced(sum, payloads, EnsureStatuses(sum, statuses, payloads), log)
    ensures Aligned(sum, EnsureStatuses(sum, statuses, payloads), payloads)
  {
    EnsureStatusesAligned(sum, statuses, payloads);
    if statuses == [] {
      FreshTotal(EnsureStatuses(sum, statuses, payloads));
    } else {
      EnsureStatusesFixed(sum, statuses, payloads);
    }
  }

  lemma {:induction false} SweepKeepsAligned(sum: Bytes -> string, round: Round, statuses: seq<InvocationStatus>, i: nat, budget: nat, head: Head, log: Log)
    requires Aligned(sum, statuses, round.payloads)
    ensures Aligned(sum, SweepPayloads(round, statuses, i, budget, head, log).statuses, round.payloads)
    decreases |statuses| - i
  {
    hide VisitPayload;
    if i < |statuses| && budget > 0 {
      if !IsRunnable(statuses[i], round.retryLimit) {
        SweepKeepsAligned(sum, round, statuses, i + 1, budget, head, log);
      } else {
        VisitSetsPhase(round, statuses[i].(phase := Running), head, log);
        var visit := VisitPayload(round, statuses[i].(phase := Running), head, log);
        if !visit.stopped {
          SweepKeepsAligned(sum, round, statuses[i := visit.status], i + 1, budget - 1, visit.head, visit.log);
        }
      }
    }
  }

  /** A pass that completes keeps the counters true to the list, and its retries are the
      counted calls beyond the first one of each payload. */
  predicate Accounted(status: JobStatus, log: Log) {
    && status.active == CountPhase(status.statuses, Running)
    && status.succeeded == CountPhase(status.statuses, Succeeded)
    && status.failed == CountPhase(status.statuses, Failed)
    && status.retries == Counted(log) - CountAttempted(status.statuses)
  }

  lemma {:induction false} InvokingBalances(sum: Bytes -> string, round: Round, limit: nat, prepared: JobStatus, log: Log)
    requires Aligned(sum, prepared.statuses, round.payloads) && Balanced(sum, round.payloads, prepared.statuses, log)
    ensures var pass := InvokeAndSummarize(round, limit, prepared, log);
            && Balanced(sum, round.payloads, pass.status.statuses, pass.log)
            && (!InvokePrepared(round, limit, prepared, log).stopped ==> Accounted(pass.status, pass.log))
  {
    hide SweepPayloads, CountPhase, CountRetries, TotalAttempts, Counted, CountAttempted;
    SweepTotal(round, prepared.statuses, 0, limit, HeadOf(prepared), log);
    SweepKeepsAligned(sum, round, prepared.statuses, 0, limit, HeadOf(prepared), log);
    RetriesAreExtraAttempts(InvokePrepared(round, limit, prepared, log).statuses);
    assert InvokeAndSummarize(round, limit, prepared, log).status.statuses == InvokePrepared(round, limit, prepared, log).statuses;
  }

  lemma {:induction false} PassBalances(sum: Bytes -> string, input: PassInput, status: JobStatus, log: Log)
    requires Balanced(sum, input.spec.InlinePayloads(), status.statuses, log)
    ensures var pass := ReconcileJob(sum, input, status, log);
            && Balanced(sum, input.spec.InlinePayloads(), pass.status.statuses, pass.log)
            && (Invokes(input) && !IsTerminal(status) ==> Accounted(pass.status, pass.log))
  {
    hide InvokeAndSummarize, EnsureStatuses, Balanced, Aligned, CountPhase, CountRetries, TotalAttempts, Counted, Accounted, Implemented;
    if !IsTerminal(status) && input.spec.functionName != "" && ReadyForInvocation(input.lookup) {
      var payloads := input.spec.InlinePayloads();
      CarryOverBalances(sum, payloads, status.statuses, log);
      var prepared := Prepare(sum, input.generation, payloads, status);
      if input.invoker.Some? {
        AlignedInRange(sum, prepared.statuses, payloads);
        InvokingBalances(sum, RoundOf(input), input.spec.DesiredParallelism(), prepared, log);
        if Implemented(input.invoker.value) {
          ImplementedNeverStops(RoundOf(input), prepared.statuses, 0, input.spec.DesiredParallelism(), HeadOf(prepared), log);
        }
      }
    }
  }

  lemma {:induction false} AlignedInRange(sum: Bytes -> string, statuses: seq<InvocationStatus>, payloads: seq<Bytes>)
    requires Aligned(sum, statuses, payloads)
    ensures InRange(statuses, |payloads|)
  {
  }

  lemma {:induction false} ImplementedNeverStops(round: Round, statuses: seq<InvocationStatus>, i: nat, budget: nat, head: Head, log: Log)
    requires InRange(statuses, |round.payloads|) && Implemented(round.invoke)
    ensures !SweepPayloads(round, statuses, i, budget, head, log).stopped
    decreases |statuses| - i
  {
    hide VisitPayload;
    if i < |statuses| && budget > 0 {
      if !IsRunnable(statuses[i], round.retryLimit) {
        ImplementedNeverStops(round, statuses, i + 1, budget, head, log);
      } else {
        var visit := VisitPayload(round, statuses[i].(phase := Running), head, log);
        ImplementedVisit(round, statuses[i].(phase := Running), head, log);
        ImplementedNeverStops(round, statuses[i := visit.status], i + 1, budget - 1, visit.head, visit.log);
      }
    }
  }

  lemma {:induction false} ImplementedVisit(round: Round, status: InvocationStatus, head: Head, log: Log)
    requires 0 <= status.index < |round.payloads| && Implemented(round.invoke)
    ensures !VisitPayload(round, status, head, log).stopped
    decreases round.retryLimit + 1 - status.attempts
  {
    if status.attempts < round.retryLimit + 1 {
      var request := Request(round.target, status.index, round.payloads[status.index], "");
      var answer := round.invoke(log, request);
      if answer.AnswerError? {
        ImplementedVisit(round, Observe(status, answer.response).(error := answer.message),
                         NoteRequestId(head, answer.response).(lastError := answer.message), log + [Call(request, answer)]);
      }
    }
  }

  lemma {:induction false} RunBalances(sum: Bytes -> string, payloads: seq<Bytes>, inputs: seq<PassInput>, world: World)
    requires forall k :: 0 <= k < |inputs| ==> inputs[k].spec.InlinePayloads() == payloads
    requires Balanced(sum, payloads, world.status.statuses, world.log)
    ensures var end := RunJob(sum, inputs, world); Balanced(sum, payloads, end.status.statuses, end.log)
  {
    hide ReconcileJob, Balanced;
    if inputs != [] {
      PassBalances(sum, inputs[0], world.status, world.log);
      var pass := ReconcileJob(sum, inputs[0], world.status, world.log);
      RunBalances(sum, payloads, inputs[1..], World(pass.status, pass.log));
    }
  }

  /** After any run over fixed payloads, a pass that completes publishes true counters and
      reports as retries the counted calls minus the payloads attempted. */
  lemma {:induction false} CountersTellTheTruth(sum: Bytes -> string, inputs: seq<PassInput>, last: PassInput)
    requires forall k :: 0 <= k < |inputs| ==> inputs[k].spec.InlinePayloads() == last.spec.InlinePayloads()
    requires Invokes(last)
    ensures var before := RunJob(sum, inputs, World(FRESH_JOB, []));
            var pass := ReconcileJob(sum, last, before.status, before.log);
            !IsTerminal(before.status) ==> Accounted(pass.status, pass.log)
  {
    hide ReconcileJob, Accounted;
    RunBalances(sum, last.spec.InlinePayloads(), inputs, World(FRESH_JOB, []));
    var before := RunJob(sum, inputs, World(FRESH_JOB, []));
    PassBalances(sum, last, before.status, before.log);
  }

  // ---------------------------------------------------------------- conditions

  predicate Says(condition: Option<Condition>, holds: bool) { condition.Some? && condition.value.status == holds }

  /** Exactly one of the four conditions is true, and it is the one the phase names. */
  predicate PhaseNamed(status: JobStatus) {
    && Says(status.conditions.pending, status.phase == Pending)
    && Says(status.conditions.running, status.phase == Running)
    && Says(status.conditions.complete, status.phase == Succeeded)
    && Says(status.conditions.failed, status.phase == Failed)
  }

  lemma {:induction false} InvokingNamesPhase(round: Round, limit: nat, prepared: JobStatus, log: Log)
    requires InRange(prepared.statuses, |round.payloads|)
    ensures var after := InvokeAndSummarize(round, limit, prepared, log).status; after.phase != Unset && PhaseNamed(after)
  {
    hide SweepPayloads, RecomputeCounts, PhaseNamed, Summarize, MarkInvokerNotConfigured, HasRunnable;
    var sweep := InvokePrepared(round, limit, prepared, log);
    SummaryNamesPhase(RecomputeCounts(SweepStatus(prepared, sweep)), |round.payloads|);
    NotConfiguredNamesPhase(SweepStatus(prepared, sweep));
  }

  lemma {:induction false} SummaryNamesPhase(status: JobStatus, total: int)
    ensures Summarize(status, total).phase != Unset && PhaseNamed(Summarize(status, total))
  {
  }

  lemma {:induction false} NotConfiguredNamesPhase(status: JobStatus)
    ensures MarkInvokerNotConfigured(status).phase != Unset && PhaseNamed(MarkInvokerNotConfigured(status))
  {
  }

  lemma {:induction false} PassNamesPhase(sum: Bytes -> string, input: PassInput, status: JobStatus, log: Log)
    requires status.phase == Unset || PhaseNamed(status)
    ensures var after := ReconcileJob(sum, input, status, log).status;
            after == status || (after.phase != Unset && PhaseNamed(after))
  {
    hide InvokeAndSummarize, EnsureStatuses, CountPhase, CountRetries;
    if !IsTerminal(status) && input.spec.functionName != "" && ReadyForInvocation(input.lookup) && input.invoker.Some? {
      EnsureStatusesAligned(sum, status.statuses, input.spec.InlinePayloads());
      var prepared := Prepare(sum, input.generation, input.spec.InlinePayloads(), status);
      InvokingNamesPhase(RoundOf(input), input.spec.DesiredParallelism(), prepared, log);
    }
  }

  lemma {:induction false} RunNamesPhase(sum: Bytes -> string, inputs: seq<PassInput>, world: World)
    requires world.status.phase == Unset || PhaseNamed(world.status)
    ensures var end := RunJob(sum, inputs, world).status; end.phase == Unset || PhaseNamed(end)
  {
    hide ReconcileJob;
    if inputs != [] {
      PassNamesPhase(sum, inputs[0], world.status, world.log);
      var pass := ReconcileJob(sum, inputs[0], world.status, world.log);
      RunNamesPhase(sum, inputs[1..], World(pass.status, pass.log));
    }
  }

  // ---------------------------------------------------------------- jobs that never finish

  /** An unfinished entry without attempts left.  It arises when the retry limit is lowered
      below the attempts already made. */
  predicate Stuck(entry: InvocationStatus, retryLimit: int) {
    !Finished(entry) && entry.attempts >= retryLimit + 1
  }

  lemma {:induction false} SweepKeepsStuck(round: Round, statuses: seq<InvocationStatus>, i: nat, budget: nat, head: Head, log: Log, index: nat)
    requires InRange(statuses, |round.payloads|) && Numbered(statuses)
    requires index < |statuses| && Stuck(statuses[index], round.retryLimit)
    ensures var sweep := SweepPayloads(round, statuses, i, budget, head, log);
            && |sweep.statuses| == |statuses|
            && Stuck(sweep.statuses[index], round.retryLimit)
            && History(sweep.log, index) == History(log, index)
            && sweep.statuses[index].payloadDigest == statuses[index].payloadDigest
    decreases |statuses| - i
  {
    if i < |statuses| && budget > 0 {
      if !IsRunnable(statuses[i], round.retryLimit) {
        SweepKeepsStuck(round, statuses, i + 1, budget, head, log, index);
      } else {
        var visit := VisitPayload(round, statuses[i].(phase := Running), head, log);
        hide History;
        VisitHistory(round, statuses[i].(phase := Running), head, log, index);
        if !visit.stopped {
          SweepKeepsStuck(round, statuses[i := visit.status], i + 1, budget - 1, visit.head, visit.log, index);
        }
      }
    }
  }

  /** The job is stuck on a payload its spec still carries unchanged. */
  predicate StuckOn(sum: Bytes -> string, input: PassInput, statuses: seq<InvocationStatus>, index: nat) {
    && Numbered(statuses)
    && index < |statuses| && index < |input.spec.InlinePayloads()|
    && statuses[index].payloadDigest == DigestPayload(sum, input.spec.InlinePayloads()[index])
    && statuses[index].phase != Unset
    && Stuck(statuses[index], input.spec.DesiredRetryLimit())
  }

  lemma {:induction false} StuckInvoking(sum: Bytes -> string, round: Round, limit: nat, prepared: JobStatus, log: Log, index: nat)
    requires Implemented(round.invoke) && Aligned(sum, prepared.statuses, round.payloads)
    requires index < |prepared.statuses| && Stuck(prepared.statuses[index], round.retryLimit)
    ensures var pass := InvokeAndSummarize(round, limit, prepared, log);
            && pass.status.phase == Running && pass.outcome == Requeue
            && Aligned(sum, pass.status.statuses, round.payloads)
            && Stuck(pass.status.statuses[index], round.retryLimit)
            && History(pass.log, index) == History(log, index)
  {
    hide SweepPayloads, CountPhase, CountRetries, Implemented, History;
    ImplementedNeverStops(round, prepared.statuses, 0, limit, HeadOf(prepared), log);
    SweepKeepsStuck(round, prepared.statuses, 0, limit, HeadOf(prepared), log, index);
    SweepKeepsAligned(sum, round, prepared.statuses, 0, limit, HeadOf(prepared), log);
    var sweep := InvokePrepared(round, limit, prepared, log);
    FinishSummarizes(prepared, sweep);
    assert !Finished(sweep.statuses[index]) && IsRunnable(sweep.statuses[index], round.retryLimit);
  }

  lemma {:induction false} StuckPass(sum: Bytes -> string, input: PassInput, status: JobStatus, log: Log, index: nat)
    requires Invokes(input) && !IsTerminal(status) && StuckOn(sum, input, status.statuses, index)
    ensures var pass := ReconcileJob(sum, input, status, log);
            && pass.status.phase == Running && pass.outcome == Requeue
            && StuckOn(sum, input, pass.status.statuses, index)
            && History(pass.log, index) == History(log, index)
  {
    hide InvokeAndSummarize, CountPhase, CountRetries, Implemented, Stuck, History;
    var payloads := input.spec.InlinePayloads();
    ByIndexOfAligned(status.statuses);
    EnsureStatusesAligned(sum, status.statuses, payloads);
    assert EnsureStatuses(sum, status.statuses, payloads)[index] == status.statuses[index];
    StuckInvoking(sum, RoundOf(input), input.spec.DesiredParallelism(), Prepare(sum, input.generation, payloads, status), log, index);
  }

  /** Such a job is Running, and asks to be reconciled again at once, after every pass:
      it never finishes, and never makes another call for that payload. */
  lemma {:induction false} StuckForever(sum: Bytes -> string, input: PassInput, parallelisms: seq<int>, world: World, index: nat)
    requires Invokes(input) && !IsTerminal(world.status) && StuckOn(sum, input, world.status.statuses, index)
    ensures var end := RunJob(sum, Inputs(input, parallelisms), world);
            && !IsTerminal(end.status) && StuckOn(sum, input, end.status.statuses, index)
            && (parallelisms != [] ==> end.status.phase == Running)
            && History(end.log, index) == History(world.log, index)
  {
    hide ReconcileJob, Invokes, History;
    if parallelisms != [] {
      var first := WithParallelism(input, parallelisms[0]);
      assert Invokes(first) && StuckOn(sum, first, world.status.statuses, index) by { StuckIgnoresParallelism(sum, input, parallelisms[0], world.status.statuses, index); }
      StuckPass(sum, first, world.status, world.log, index);
      var pass := ReconcileJob(sum, first, world.status, world.log);
      StuckIgnoresParallelism(sum, input, parallelisms[0], pass.status.statuses, index);
      StuckForever(sum, input, parallelisms[1..], World(pass.status, pass.log), index);
      assert Inputs(input, parallelisms)[1..] == Inputs(input, parallelisms[1..]);
    }
  }

  /** An invoker that answers the first call with an error and then turns out not to be
      implemented. */
  function Faltering(): Invoker {
    (log, request) => if log == [] then AnswerError(Response("", "", 500), "unavailable") else AnswerNotImplemented
  }

  /** A pass over one payload that ends after one counted attempt of several. */
  function FalteringInput(target: Target, body: Bytes, retryLimit: int): PassInput {
    PassInput(JobSpec("f", None, [body], 1, retryLimit), 1, Found(true, target, ""), Some(Faltering()))
  }

  /** Such entries are reached.  A fresh job with a retry limit of at least 1 makes one attempt
      and is stopped; a limit of 0 then finds its payload stuck, and StuckForever applies. */
  lemma {:induction false} StuckIsReached(sum: Bytes -> string, target: Target, body: Bytes, retryLimit: int, later: PassInput)
    requires target.functionOCID != "" && target.invokeEndpoint != "" && retryLimit >= 1
    requires later.spec.InlinePayloads() == [body] && later.spec.DesiredRetryLimit() == 0
    ensures var first := RunJob(sum, [FalteringInput(target, body, retryLimit)], World(FRESH_JOB, []));
            !IsTerminal(first.status) && StuckOn(sum, later, first.status.statuses, 0) && Counted(History(first.log, 0)) == 1
  {
    var input := FalteringInput(target, body, retryLimit);
    var round := RoundOf(input);
    var prepared := Prepare(sum, 1, [body], FRESH_JOB);
    var digest := DigestPayload(sum, body);
    assert EnsureStatuses(sum, [], [body]) == [FreshStatus(0, digest)];
    var running := FreshStatus(0, digest).(phase := Running);
    var request := Request(target, 0, body, "");
    var one := Call(request, AnswerError(Response("", "", 500), "unavailable"));
    var two := Call(request, AnswerNotImplemented);
    var head := Head("unavailable", "");
    var tried := running.(attempts := 1, statusCode := 500, error := "unavailable");
    assert [] + [one] == [one] && [one] + [two] == [one, two];
    assert VisitPayload(round, tried, head, [one]) == Visit(tried.(phase := Pending), head, [one, two], true);
    assert VisitPayload(round, running, Head("", ""), []) == Visit(tried.(phase := Pending), head, [one, two], true);
    StoppedPass(sum, input, prepared, tried.(phase := Pending), head, [one, two]);
    assert [input][1..] == [];
    HistoryAppend([one], two, 0);
    HistoryAppend([], one, 0);
    CountedAppend([one], two);
    CountedAppend([], one);
  }

  lemma {:induction false} StoppedPass(sum: Bytes -> string, input: PassInput, prepared: JobStatus, entry: InvocationStatus, head: Head, log: Log)
    requires input.spec.functionName != "" && ReadyForInvocation(input.lookup) && input.invoker.Some?
    requires |input.spec.InlinePayloads()| == 1 && input.spec.DesiredParallelism() >= 1
    requires prepared == Prepare(sum, input.generation, input.spec.InlinePayloads(), FRESH_JOB)
    requires |prepared.statuses| == 1 && prepared.statuses[0].index == 0 && prepared.statuses[0].phase == Pending
    requires VisitPayload(RoundOf(input), prepared.statuses[0].(phase := Running), Head("", ""), []) == Visit(entry, head, log, true)
    ensures var pass := ReconcileJob(sum, input, FRESH_JOB, []);
            pass.status.phase == Pending && pass.status.statuses == [entry] && pass.log == log
  {
    hide VisitPayload, CountPhase, CountRetries, EnsureStatuses;
    assert prepared.statuses[0 := entry] == [entry];
  }

  lemma {:induction false} StuckIgnoresParallelism(sum: Bytes -> string, input: PassInput, p: int, statuses: seq<InvocationStatus>, index: nat)
    ensures Invokes(input) ==> Invokes(WithParallelism(input, p))
    ensures StuckOn(sum, input, statuses, index) <==> StuckOn(sum, WithParallelism(input, p), statuses, index)
  {
  }

  lemma {:induction false} UnstuckFinishes(sum: Bytes -> string, input: PassInput, p: int, world: World)
    requires Invokes(input) && p >= 1 && Open(input, world.status)
    requires Aligned(sum, world.status.statuses, input.spec.InlinePayloads())
    ensures IsTerminal(RunJob(sum, Inputs(input, Copies(p, |input.spec.InlinePayloads()|)), world).status)
  {
    hide ReconcileJob, Invokes, RunJob, Inputs, Sum, Copies, Open;
    var n := |input.spec.InlinePayloads()|;
    SumCopies(p, n);
    MultiplyMonotone(1, p, n);
    RunIsOnePass(sum, input, Copies(p, n), world);
    OnePassProgress(sum, input, n * p, world.status, world.log);
    EnsureStatusesFixed(sum, world.status.statuses, input.spec.InlinePayloads());
    CountRunnableBound(world.status.statuses, input.spec.DesiredRetryLimit());
  }

  /** Exactly when a job finishes.  Take a job whose failed entries have used all their
      attempts (lowering the retry limit keeps that) and whose list belongs to its payloads.
      As many passes as it has payloads end it if and only if no entry is stuck. */
  lemma {:induction false} FinishesUnlessStuck(sum: Bytes -> string, input: PassInput, p: int, world: World)
    requires Invokes(input) && p >= 1 && !IsTerminal(world.status)
    requires Aligned(sum, world.status.statuses, input.spec.InlinePayloads())
    requires forall k :: 0 <= k < |world.status.statuses| && world.status.statuses[k].phase == Failed ==>
               world.status.statuses[k].attempts >= input.spec.DesiredRetryLimit() + 1
    ensures var n := |input.spec.InlinePayloads()|;
            var end := RunJob(sum, Inputs(input, Copies(p, n)), world);
            IsTerminal(end.status) <==> forall k :: 0 <= k < n ==> !Stuck(world.status.statuses[k], input.spec.DesiredRetryLimit())
  {
    hide ReconcileJob, Invokes, RunJob, Inputs, Copies;
    var statuses, limit, n := world.status.statuses, input.spec.DesiredRetryLimit(), |input.spec.InlinePayloads()|;
    if index :| 0 <= index < n && Stuck(statuses[index], limit) {
      StuckForever(sum, input, Copies(p, n), world, index);
    } else {
      forall k | 0 <= k < n ensures Settled(statuses[k], limit) {
        assert !Stuck(statuses[k], limit);
      }
      UnstuckFinishes(sum, input, p, world);
    }
  }

  lemma {:induction false} CountRunnableBound(statuses: seq<InvocationStatus>, retryLimit: int)
    ensures CountRunnable(statuses, retryLimit) <= |statuses|
  {
    if statuses != [] {
      CountRunnableBound(statuses[1..], retryLimit);
    }
  }
}
