/** Whole runs of a FunctionJob, part one: what parallelism can and cannot change.

    The main result is an algebraic law.  A pass that may process p payloads followed
    by a pass that may process q payloads is one pass that may process p + q: same
    status, same calls, same answers.  Exact pass counts and independence from
    parallelism are corollaries. */
module JobProgress {
  import opened Invocations
  import opened FunctionJobs

  /** The shape every entry has while the retry limit is not changed: a failed payload has
      used all its attempts, an unfinished one still has an attempt left. */
  predicate Settled(status: InvocationStatus, retryLimit: int) {
    match status.phase
    case Succeeded => true
    case Failed => status.attempts >= retryLimit + 1
    case _ => status.attempts <= retryLimit
  }

  predicate AllSettled(statuses: seq<InvocationStatus>, retryLimit: int) {
    forall i :: 0 <= i < |statuses| ==> Settled(statuses[i], retryLimit)
  }

  predicate Finished(status: InvocationStatus) { status.phase == Succeeded || status.phase == Failed }

  function CountRunnable(statuses: seq<InvocationStatus>, retryLimit: int): nat {
    if statuses == [] then 0
    else (if IsRunnable(statuses[0], retryLimit) then 1 else 0) + CountRunnable(statuses[1..], retryLimit)
  }

  /** Position, index and digest of every entry agree with the payload list. */
  predicate Aligned(sum: Bytes -> string, statuses: seq<InvocationStatus>, payloads: seq<Bytes>) {
    && |statuses| == |payloads|
    && forall i :: 0 <= i < |statuses| ==>
         statuses[i].index == i && statuses[i].payloadDigest == DigestPayload(sum, payloads[i]) && statuses[i].phase != Unset
  }

  // ---------------------------------------------------------------- one payload

  lemma {:induction false} VisitFinishes(round: Round, status: InvocationStatus, head: Head, log: Log)
    requires 0 <= status.index < |round.payloads| && status.phase == Running && status.attempts <= round.retryLimit
    ensures var visit := VisitPayload(round, status, head, log);
            && Settled(visit.status, round.retryLimit)
            && (visit.stopped <==> visit.status.phase == Pending)
            && (!visit.stopped <==> Finished(visit.status))
            && (Implemented(round.invoke) ==> !visit.stopped)
    decreases round.retryLimit + 1 - status.attempts
  {
    var answer := round.invoke(log, Request(round.target, status.index, round.payloads[status.index], ""));
    if answer.AnswerError? {
      var observed := Observe(status, answer.response).(error := answer.message);
      if observed.attempts <= round.retryLimit {
        VisitFinishes(round, observed, NoteRequestId(head, answer.response).(lastError := answer.message),
                      log + [Call(Request(round.target, status.index, round.payloads[status.index], ""), answer)]);
      }
    }
  }

  // ---------------------------------------------------------------- the list

  lemma {:induction false} SweepKeepsShape(round: Round, statuses: seq<InvocationStatus>, i: nat, budget: nat, head: Head, log: Log)
    requires InRange(statuses, |round.payloads|) && AllSettled(statuses, round.retryLimit)
    ensures var sweep := SweepPayloads(round, statuses, i, budget, head, log);
            && |sweep.statuses| == |statuses|
            && AllSettled(sweep.statuses, round.retryLimit)
            && (forall k :: 0 <= k < i && k < |statuses| ==> sweep.statuses[k] == statuses[k])
            && (forall k :: 0 <= k < |statuses| ==>
                  && sweep.statuses[k].index == statuses[k].index
                  && sweep.statuses[k].payloadDigest == statuses[k].payloadDigest
                  && (statuses[k].phase != Unset ==> sweep.statuses[k].phase != Unset))
            && (Implemented(round.invoke) ==> !sweep.stopped)
    decreases |statuses| - i
  {
    hide VisitPayload;
    if i < |statuses| && budget > 0 {
      if !IsRunnable(statuses[i], round.retryLimit) {
        SweepKeepsShape(round, statuses, i + 1, budget, head, log);
      } else {
        VisitFinishes(round, statuses[i].(phase := Running), head, log);
        var visit := VisitPayload(round, statuses[i].(phase := Running), head, log);
        if !visit.stopped {
          SweepKeepsShape(round, statuses[i := visit.status], i + 1, budget - 1, visit.head, visit.log);
        }
      }
    }
  }

  /** Without runnable payloads a sweep does nothing. */
  lemma {:induction false} SweepIdle(round: Round, statuses: seq<InvocationStatus>, i: nat, budget: nat, head: Head, log: Log)
    requires InRange(statuses, |round.payloads|) && !HasRunnable(statuses, round.retryLimit)
    ensures SweepPayloads(round, statuses, i, budget, head, log) == Sweep(statuses, head, log, 0, false)
    decreases |statuses| - i
  {
    if i < |statuses| {
      SweepIdle(round, statuses, i + 1, budget, head, log);
    }
  }

  /** Two sweeps compose into one whose budget is the sum. */
  lemma {:induction false} SweepCompose(round: Round, statuses: seq<InvocationStatus>, i: nat, p: nat, q: nat, head: Head, log: Log)
    requires InRange(statuses, |round.payloads|) && AllSettled(statuses, round.retryLimit)
    requires Implemented(round.invoke)
    ensures var first := SweepPayloads(round, statuses, i, p, head, log);
            && InRange(first.statuses, |round.payloads|)
            && var second := SweepPayloads(round, first.statuses, i, q, first.head, first.log);
               second.(processed := first.processed + second.processed) == SweepPayloads(round, statuses, i, p + q, head, log)
    decreases |statuses| - i
  {
    hide VisitPayload;
    SweepKeepsShape(round, statuses, i, p, head, log);
    if i >= |statuses| || p == 0 {
    } else if !IsRunnable(statuses[i], round.retryLimit) {
      SweepKeepsShape(round, statuses, i + 1, p, head, log);
      SweepCompose(round, statuses, i + 1, p, q, head, log);
    } else {
      VisitFinishes(round, statuses[i].(phase := Running), head, log);
      var visit := VisitPayload(round, statuses[i].(phase := Running), head, log);
      SweepKeepsShape(round, statuses[i := visit.status], i + 1, p - 1, visit.head, visit.log);
      SweepCompose(round, statuses[i := visit.status], i + 1, p - 1, q, visit.head, visit.log);
    }
  }

  /** A sweep removes exactly min(budget, runnable) entries from the runnable ones. */
  lemma {:induction false} SweepCount(round: Round, statuses: seq<InvocationStatus>, i: nat, budget: nat, head: Head, log: Log)
    requires InRange(statuses, |round.payloads|) && AllSettled(statuses, round.retryLimit) && Implemented(round.invoke)
    requires i <= |statuses|
    ensures var runnable := CountRunnable(statuses[i..], round.retryLimit);
            var sweep := SweepPayloads(round, statuses, i, budget, head, log);
            && |sweep.statuses| == |statuses|
            && CountRunnable(sweep.statuses[i..], round.retryLimit) == if budget < runnable then runnable - budget else 0
    decreases |statuses| - i
  {
    hide VisitPayload;
    SweepKeepsShape(round, statuses, i, budget, head, log);
    if i < |statuses| && budget > 0 {
      var final := SweepPayloads(round, statuses, i, budget, head, log).statuses;
      assert statuses[i..] == [statuses[i]] + statuses[i + 1..] && final[i..] == [final[i]] + final[i + 1..];
      if !IsRunnable(statuses[i], round.retryLimit) {
        SweepKeepsShape(round, statuses, i + 1, budget, head, log);
        SweepCount(round, statuses, i + 1, budget, head, log);
      } else {
        VisitFinishes(round, statuses[i].(phase := Running), head, log);
        var visit := VisitPayload(round, statuses[i].(phase := Running), head, log);
        var updated := statuses[i := visit.status];
        assert updated[i + 1..] == statuses[i + 1..];
        SweepKeepsShape(round, updated, i + 1, budget - 1, visit.head, visit.log);
        SweepCount(round, updated, i + 1, budget - 1, visit.head, visit.log);
      }
    }
  }

  lemma {:induction false} CountRunnableZero(statuses: seq<InvocationStatus>, retryLimit: int)
    ensures CountRunnable(statuses, retryLimit) > 0 <==> HasRunnable(statuses, retryLimit)
    ensures (forall i :: 0 <= i < |statuses| ==> IsRunnable(statuses[i], retryLimit)) ==> CountRunnable(statuses, retryLimit) == |statuses|
  {
    if statuses != [] {
      CountRunnableZero(statuses[1..], retryLimit);
      if i :| 0 <= i < |statuses| && IsRunnable(statuses[i], retryLimit) {
        assert i > 0 ==> statuses[1..][i - 1] == statuses[i];
      }
      if i :| 0 <= i < |statuses[1..]| && IsRunnable(statuses[1..][i], retryLimit) {
        assert statuses[i + 1] == statuses[1..][i];
      }
    }
  }

  // ---------------------------------------------------------------- the status list is aligned

  lemma {:induction false} ByIndexOfAligned(statuses: seq<InvocationStatus>)
    requires forall i :: 0 <= i < |statuses| ==> statuses[i].index == i
    ensures forall i :: 0 <= i < |statuses| ==> i in ByIndex(statuses) && ByIndex(statuses)[i] == statuses[i]
  {
    if statuses != [] {
      ByIndexOfAligned(statuses[..|statuses| - 1]);
    }
  }

  /** Index i and digest i stand at position i, whatever list was persisted before. */
  lemma {:induction false} EnsureStatusesAligned(sum: Bytes -> string, statuses: seq<InvocationStatus>, payloads: seq<Bytes>)
    ensures Aligned(sum, EnsureStatuses(sum, statuses, payloads), payloads)
  {
  }

  /** An aligned list is a fixed point: the carry-over is idempotent. */
  lemma {:induction false} EnsureStatusesFixed(sum: Bytes -> string, statuses: seq<InvocationStatus>, payloads: seq<Bytes>)
    requires Aligned(sum, statuses, payloads)
    ensures EnsureStatuses(sum, statuses, payloads) == statuses
  {
    ByIndexOfAligned(statuses);
  }

  lemma {:induction false} EnsureStatusesIdempotent(sum: Bytes -> string, statuses: seq<InvocationStatus>, payloads: seq<Bytes>)
    ensures var once := EnsureStatuses(sum, statuses, payloads);
            Aligned(sum, once, payloads) && EnsureStatuses(sum, once, payloads) == once
  {
    EnsureStatusesAligned(sum, statuses, payloads);
    EnsureStatusesFixed(sum, EnsureStatuses(sum, statuses, payloads), payloads);
  }

  lemma {:induction false} EnsureStatusesSettled(sum: Bytes -> string, statuses: seq<InvocationStatus>, payloads: seq<Bytes>, retryLimit: int)
    requires AllSettled(statuses, retryLimit) && retryLimit >= 0
    ensures AllSettled(EnsureStatuses(sum, statuses, payloads), retryLimit)
  {
  }

  // ---------------------------------------------------------------- aggregation

  lemma {:induction false} CountsByPhase(statuses: seq<InvocationStatus>)
    ensures CountPhase(statuses, Succeeded) + CountPhase(statuses, Failed) <= |statuses|
    ensures CountPhase(statuses, Succeeded) + CountPhase(statuses, Failed) == |statuses|
            <==> forall i :: 0 <= i < |statuses| ==> Finished(statuses[i])
    ensures CountPhase(statuses, Failed) > 0 <==> exists i :: 0 <= i < |statuses| && statuses[i].phase == Failed
  {
    if statuses != [] {
      var n := |statuses| - 1;
      CountsByPhase(statuses[..n]);
      assert forall i :: 0 <= i < n ==> statuses[..n][i] == statuses[i];
    }
  }

  /** What the summary of a completed pass says, for any list of entries. */
  predicate Summarized(status: JobStatus) {
    var statuses := status.statuses;
    && (status.phase == Succeeded <==> forall i :: 0 <= i < |statuses| ==> statuses[i].phase == Succeeded)
    && (status.phase == Failed <==> && (forall i :: 0 <= i < |statuses| ==> Finished(statuses[i]))
                                    && exists i :: 0 <= i < |statuses| && statuses[i].phase == Failed)
    && (status.phase == Running <==> exists i :: 0 <= i < |statuses| && !Finished(statuses[i]))
  }

  lemma {:induction false} FinishSummarizes(prepared: JobStatus, sweep: Sweep)
    requires sweep.statuses != []
    ensures Summarized(Finish(prepared, sweep, |sweep.statuses|))
  {
    CountsByPhase(sweep.statuses);
    if forall i :: 0 <= i < |sweep.statuses| ==> Finished(sweep.statuses[i]) {
    } else {
      var i :| 0 <= i < |sweep.statuses| && !Finished(sweep.statuses[i]);
    }
  }

  // ---------------------------------------------------------------- sweep and summary

  /** The status and log a pass starts from, right after the carry-over. */
  ghost predicate Ready(sum: Bytes -> string, round: Round, prepared: JobStatus) {
    && Implemented(round.invoke) && round.payloads != []
    && Aligned(sum, prepared.statuses, round.payloads) && AllSettled(prepared.statuses, round.retryLimit)
  }

  lemma {:induction false} SettledRunnable(statuses: seq<InvocationStatus>, retryLimit: int)
    requires AllSettled(statuses, retryLimit)
    ensures HasRunnable(statuses, retryLimit) <==> exists i :: 0 <= i < |statuses| && !Finished(statuses[i])
  {
    forall i | 0 <= i < |statuses| ensures IsRunnable(statuses[i], retryLimit) <==> !Finished(statuses[i]) {
      assert Settled(statuses[i], retryLimit);
    }
  }

  /** The status a list of settled entries leads to. */
  lemma {:induction false} FinishPhase(prepared: JobStatus, sweep: Sweep, retryLimit: int)
    requires sweep.statuses != [] && AllSettled(sweep.statuses, retryLimit)
    ensures var final := Finish(prepared, sweep, |sweep.statuses|);
            && final.statuses == sweep.statuses && Summarized(final)
            && (final.phase == Running <==> HasRunnable(sweep.statuses, retryLimit))
            && (IsTerminal(final) <==> !HasRunnable(sweep.statuses, retryLimit))
  {
    hide CountPhase, CountRetries, HasRunnable;
    FinishSummarizes(prepared, sweep);
    SettledRunnable(sweep.statuses, retryLimit);
  }

  /** The entries an unstopped sweep leaves: aligned and settled, and the status they are
      summarized into says what they are. */
  lemma {:induction false} CompletedSweep(sum: Bytes -> string, round: Round, p: nat, prepared: JobStatus, log: Log)
    requires Ready(sum, round, prepared)
    ensures var sweep := InvokePrepared(round, p, prepared, log);
            var pass := InvokeAndSummarize(round, p, prepared, log);
            && !sweep.stopped
            && Aligned(sum, sweep.statuses, round.payloads) && AllSettled(sweep.statuses, round.retryLimit)
            && pass == JobPass(Finish(prepared, sweep, |round.payloads|), sweep.log,
                               if HasRunnable(sweep.statuses, round.retryLimit) then Requeue else Done)
            && pass.status.statuses == sweep.statuses
            && Summarized(pass.status)
            && (pass.status.phase == Running <==> HasRunnable(sweep.statuses, round.retryLimit))
            && (IsTerminal(pass.status) <==> !HasRunnable(sweep.statuses, round.retryLimit))
  {
    hide SweepPayloads, Finish, HasRunnable, Summarized, Implemented;
    SweepKeepsShape(round, prepared.statuses, 0, p, HeadOf(prepared), log);
    FinishPhase(prepared, InvokePrepared(round, p, prepared, log), round.retryLimit);
  }

  /** Finish overwrites everything but three fields of the status it starts from. */
  lemma {:induction false} FinishForgets(one: JobStatus, two: JobStatus, sweep: Sweep, sweep': Sweep, total: int)
    requires one.observedGeneration == two.observedGeneration && one.started == two.started
    requires one.conditions.resolved == two.conditions.resolved
    requires sweep.statuses == sweep'.statuses && sweep.head == sweep'.head
    ensures Finish(one, sweep, total) == Finish(two, sweep', total)
  {
  }

  /** Preparing again after a Running pass finds the list and the head where the sweep left them. */
  lemma {:induction false} PrepareAgain(sum: Bytes -> string, generation: int, payloads: seq<Bytes>, status: JobStatus, sweep: Sweep)
    requires Aligned(sum, sweep.statuses, payloads)
    requires Finish(Prepare(sum, generation, payloads, status), sweep, |payloads|).phase == Running
    ensures var before := Prepare(sum, generation, payloads, status);
            var again := Prepare(sum, generation, payloads, Finish(before, sweep, |payloads|));
            && again.statuses == sweep.statuses
            && HeadOf(again) == sweep.head
            && again.observedGeneration == before.observedGeneration && again.started == before.started
            && again.conditions.resolved == before.conditions.resolved
  {
    EnsureStatusesFixed(sum, sweep.statuses, payloads);
  }

  /** A second pass: nothing left to do, or it goes on where the first one stopped. */
  lemma {:induction false} SecondPass(sum: Bytes -> string, generation: int, round: Round, p: nat, q: nat, status: JobStatus, log: Log)
    requires Ready(sum, round, Prepare(sum, generation, round.payloads, status))
    ensures var prepared := Prepare(sum, generation, round.payloads, status);
            var first := InvokeAndSummarize(round, p, prepared, log);
            var both := InvokeAndSummarize(round, p + q, prepared, log);
            var again := Prepare(sum, generation, round.payloads, first.status);
            && (IsTerminal(first.status) ==> first == both && first.outcome == Done)
            && (!IsTerminal(first.status) ==> Ready(sum, round, again) && InvokeAndSummarize(round, q, again, first.log) == both)
  {
    var prepared := Prepare(sum, generation, round.payloads, status);
    CompletedSweep(sum, round, p, prepared, log);
    CompletedSweep(sum, round, p + q, prepared, log);
    SweepCompose(round, prepared.statuses, 0, p, q, HeadOf(prepared), log);
    var sweep, both := InvokePrepared(round, p, prepared, log), InvokePrepared(round, p + q, prepared, log);
    var first := InvokeAndSummarize(round, p, prepared, log);
    if IsTerminal(first.status) {
      SweepIdle(round, sweep.statuses, 0, q, sweep.head, sweep.log);
      FinishForgets(prepared, prepared, sweep, both, |round.payloads|);
    } else {
      PrepareAgain(sum, generation, round.payloads, status, sweep);
      var again := Prepare(sum, generation, round.payloads, first.status);
      CompletedSweep(sum, round, q, again, first.log);
      FinishForgets(again, prepared, InvokePrepared(round, q, again, first.log), both, |round.payloads|);
    }
  }

  // ---------------------------------------------------------------- passes

  /** A pass that gets as far as invoking, with an invoker that is implemented. */
  ghost predicate Invokes(input: PassInput) {
    && input.spec.functionName != "" && ReadyForInvocation(input.lookup)
    && input.invoker.Some? && Implemented(input.invoker.value)
  }

  /** A job a pass can go on with: not terminal, and settled for the retry limit in force. */
  predicate Open(input: PassInput, status: JobStatus) {
    !IsTerminal(status) && AllSettled(status.statuses, input.spec.DesiredRetryLimit())
  }

  lemma {:induction false} PrepareReady(sum: Bytes -> string, input: PassInput, status: JobStatus)
    requires Invokes(input) && Open(input, status)
    ensures Ready(sum, RoundOf(input), Prepare(sum, input.generation, input.spec.InlinePayloads(), status))
  {
    EnsureStatusesAligned(sum, status.statuses, input.spec.InlinePayloads());
    EnsureStatusesSettled(sum, status.statuses, input.spec.InlinePayloads(), input.spec.DesiredRetryLimit());
  }

  /** Such a pass is its invoking part. */
  lemma {:induction false} OpenPass(sum: Bytes -> string, input: PassInput, status: JobStatus, log: Log)
    requires Invokes(input) && Open(input, status)
    ensures var prepared := Prepare(sum, input.generation, input.spec.InlinePayloads(), status);
            && Ready(sum, RoundOf(input), prepared)
            && ReconcileJob(sum, input, status, log) == InvokeAndSummarize(RoundOf(input), input.spec.DesiredParallelism(), prepared, log)
  {
    PrepareReady(sum, input, status);
  }

  /** A terminal phase is absorbing: no calls, no change, no requeue. */
  lemma {:induction false} TerminalAbsorbs(sum: Bytes -> string, input: PassInput, status: JobStatus, log: Log)
    requires IsTerminal(status)
    ensures ReconcileJob(sum, input, status, log) == JobPass(status, log, Done)
  {
  }

  /** After a pass that invokes: the list is aligned and settled, the phase summarizes it,
      and the pass asks for another one exactly when a runnable payload remains. */
  lemma {:induction false} CompletedPass(sum: Bytes -> string, input: PassInput, status: JobStatus, log: Log)
    requires Invokes(input) && Open(input, status)
    ensures var pass := ReconcileJob(sum, input, status, log);
            var limit := input.spec.DesiredRetryLimit();
            && Aligned(sum, pass.status.statuses, input.spec.InlinePayloads())
            && AllSettled(pass.status.statuses, limit)
            && Summarized(pass.status)
            && (pass.status.phase == Running <==> HasRunnable(pass.status.statuses, limit))
            && (IsTerminal(pass.status) <==> !HasRunnable(pass.status.statuses, limit))
            && (pass.outcome == Requeue <==> HasRunnable(pass.status.statuses, limit))
  {
    hide ReconcileJob, InvokeAndSummarize, Prepare, Summarized;
    OpenPass(sum, input, status, log);
    CompletedSweep(sum, RoundOf(input), input.spec.DesiredParallelism(),
                   Prepare(sum, input.generation, input.spec.InlinePayloads(), status), log);
  }

  function WithParallelism(input: PassInput, parallelism: int): PassInput {
    input.(spec := input.spec.(parallelism := parallelism))
  }

  lemma {:induction false} ParallelismIsTheLimit(sum: Bytes -> string, input: PassInput, p: int, status: JobStatus, log: Log)
    requires p >= 1 && Invokes(input) && Open(input, status)
    ensures Ready(sum, RoundOf(input), Prepare(sum, input.generation, input.spec.InlinePayloads(), status))
    ensures ReconcileJob(sum, WithParallelism(input, p), status, log)
         == InvokeAndSummarize(RoundOf(input), p, Prepare(sum, input.generation, input.spec.InlinePayloads(), status), log)
  {
    hide ReconcileJob, InvokeAndSummarize, Prepare;
    OpenPass(sum, WithParallelism(input, p), status, log);
  }

  /** The law: parallelism p, then parallelism q, is parallelism p + q. */
  lemma {:induction false} PassesCompose(sum: Bytes -> string, input: PassInput, p: int, q: int, status: JobStatus, log: Log)
    requires p >= 1 && q >= 1 && Invokes(input) && Open(input, status)
    ensures var first := ReconcileJob(sum, WithParallelism(input, p), status, log);
            ReconcileJob(sum, WithParallelism(input, q), first.status, first.log)
            == ReconcileJob(sum, WithParallelism(input, p + q), status, log)
  {
    hide ReconcileJob, InvokeAndSummarize, Prepare, Summarized;
    ParallelismIsTheLimit(sum, input, p, status, log);
    ParallelismIsTheLimit(sum, input, p + q, status, log);
    SecondPass(sum, input.generation, RoundOf(input), p, q, status, log);
    CompletedPass(sum, WithParallelism(input, p), status, log);
    var first := ReconcileJob(sum, WithParallelism(input, p), status, log);
    if IsTerminal(first.status) {
      TerminalAbsorbs(sum, WithParallelism(input, q), first.status, first.log);
    } else {
      ParallelismIsTheLimit(sum, input, q, first.status, first.log);
    }
  }

  // ---------------------------------------------------------------- runs

  lemma {:induction false} InvokingStaysSettled(round: Round, limit: nat, prepared: JobStatus, log: Log)
    requires InRange(prepared.statuses, |round.payloads|) && AllSettled(prepared.statuses, round.retryLimit)
    ensures AllSettled(InvokeAndSummarize(round, limit, prepared, log).status.statuses, round.retryLimit)
  {
    hide SweepPayloads, CountPhase, CountRetries, Settled;
    SweepKeepsShape(round, prepared.statuses, 0, limit, HeadOf(prepared), log);
    assert InvokeAndSummarize(round, limit, prepared, log).status.statuses == InvokePrepared(round, limit, prepared, log).statuses;
  }

  lemma {:induction false} PassStaysSettled(sum: Bytes -> string, input: PassInput, status: JobStatus, log: Log)
    requires AllSettled(status.statuses, input.spec.DesiredRetryLimit())
    ensures AllSettled(ReconcileJob(sum, input, status, log).status.statuses, input.spec.DesiredRetryLimit())
  {
    hide InvokeAndSummarize, EnsureStatuses, CountPhase, CountRetries, AllSettled;
    if !IsTerminal(status) && input.spec.functionName != "" && ReadyForInvocation(input.lookup) {
      EnsureStatusesAligned(sum, status.statuses, input.spec.InlinePayloads());
      EnsureStatusesSettled(sum, status.statuses, input.spec.InlinePayloads(), input.spec.DesiredRetryLimit());
      if input.invoker.Some? {
        InvokingStaysSettled(RoundOf(input), input.spec.DesiredParallelism(),
                             Prepare(sum, input.generation, input.spec.InlinePayloads(), status), log);
      }
    }
  }

  /** While the retry limit stays the same, every run keeps every entry settled: payloads may
      be edited, the Function may be missing, the invoker may turn out not to be implemented. */
  lemma {:induction false} RunStaysSettled(sum: Bytes -> string, inputs: seq<PassInput>, retryLimit: int, world: World)
    requires forall k :: 0 <= k < |inputs| ==> inputs[k].spec.DesiredRetryLimit() == retryLimit
    requires AllSettled(world.status.statuses, retryLimit)
    ensures AllSettled(RunJob(sum, inputs, world).status.statuses, retryLimit)
  {
    hide ReconcileJob, AllSettled;
    if inputs != [] {
      PassStaysSettled(sum, inputs[0], world.status, world.log);
      var pass := ReconcileJob(sum, inputs[0], world.status, world.log);
      RunStaysSettled(sum, inputs[1..], retryLimit, World(pass.status, pass.log));
    }
  }

  /** Aggregation over whole runs: whatever happened before, a pass that completes leaves
      Succeeded exactly when all payloads succeeded, Failed exactly when all are finished and
      one failed, Running exactly when a runnable payload remains, and only then a requeue. */
  lemma {:induction false} Aggregation(sum: Bytes -> string, inputs: seq<PassInput>, last: PassInput)
    requires forall k :: 0 <= k < |inputs| ==> inputs[k].spec.DesiredRetryLimit() == last.spec.DesiredRetryLimit()
    requires Invokes(last)
    ensures var before := RunJob(sum, inputs, World(FRESH_JOB, []));
            var pass := ReconcileJob(sum, last, before.status, before.log);
            !IsTerminal(before.status) ==>
              && Summarized(pass.status)
              && (pass.status.phase == Running <==> HasRunnable(pass.status.statuses, last.spec.DesiredRetryLimit()))
              && (pass.outcome == Requeue <==> pass.status.phase == Running)
  {
    hide ReconcileJob, Summarized, HasRunnable;
    RunStaysSettled(sum, inputs, last.spec.DesiredRetryLimit(), World(FRESH_JOB, []));
    var before := RunJob(sum, inputs, World(FRESH_JOB, []));
    if !IsTerminal(before.status) {
      CompletedPass(sum, last, before.status, before.log);
    }
  }

  /** The inputs of a run in which only the parallelism changes from pass to pass. */
  function Inputs(input: PassInput, parallelisms: seq<int>): seq<PassInput> {
    if parallelisms == [] then [] else [WithParallelism(input, parallelisms[0])] + Inputs(input, parallelisms[1..])
  }

  function Sum(numbers: seq<int>): int {
    if numbers == [] then 0 else numbers[0] + Sum(numbers[1..])
  }

  lemma {:induction false} TerminalRunStays(sum: Bytes -> string, inputs: seq<PassInput>, world: World)
    requires IsTerminal(world.status)
    ensures RunJob(sum, inputs, world) == world
  {
    if inputs != [] {
      TerminalAbsorbs(sum, inputs[0], world.status, world.log);
      TerminalRunStays(sum, inputs[1..], world);
    }
  }

  lemma {:induction false} SumPositive(numbers: seq<int>)
    requires numbers != [] && forall i :: 0 <= i < |numbers| ==> numbers[i] >= 1
    ensures Sum(numbers) >= 1
  {
    if |numbers| > 1 {
      SumPositive(numbers[1..]);
    }
  }

  /** A whole run, whatever its parallelism is in each pass, is one pass whose parallelism
      is the sum: same status, same calls in the same order, same answers. */
  lemma {:induction false} RunIsOnePass(sum: Bytes -> string, input: PassInput, parallelisms: seq<int>, world: World)
    requires Invokes(input) && Open(input, world.status)
    requires parallelisms != [] && forall i :: 0 <= i < |parallelisms| ==> parallelisms[i] >= 1
    ensures var pass := ReconcileJob(sum, WithParallelism(input, Sum(parallelisms)), world.status, world.log);
            RunJob(sum, Inputs(input, parallelisms), world) == World(pass.status, pass.log)
  {
    hide ReconcileJob, Summarized;
    var p, rest := parallelisms[0], parallelisms[1..];
    var first := ReconcileJob(sum, WithParallelism(input, p), world.status, world.log);
    assert Inputs(input, parallelisms)[1..] == Inputs(input, rest);
    assert RunJob(sum, Inputs(input, parallelisms), world) == RunJob(sum, Inputs(input, rest), World(first.status, first.log));
    if rest == [] {
      assert Sum(parallelisms) == p;
    } else {
      SumPositive(rest);
      PassesCompose(sum, input, p, Sum(rest), world.status, world.log);
      CompletedPass(sum, WithParallelism(input, p), world.status, world.log);
      if IsTerminal(first.status) {
        TerminalRunStays(sum, Inputs(input, rest), World(first.status, first.log));
        TerminalAbsorbs(sum, WithParallelism(input, Sum(rest)), first.status, first.log);
      } else {
        RunIsOnePass(sum, input, rest, World(first.status, first.log));
      }
    }
  }

  /** Two runs to the end agree on everything, however they split the work. */
  lemma {:induction false} ParallelismIrrelevant(sum: Bytes -> string, input: PassInput, ps: seq<int>, qs: seq<int>, world: World)
    requires Invokes(input) && Open(input, world.status) && ps != [] && qs != []
    requires forall i :: 0 <= i < |ps| ==> ps[i] >= 1
    requires forall i :: 0 <= i < |qs| ==> qs[i] >= 1
    requires IsTerminal(RunJob(sum, Inputs(input, ps), world).status)
    requires IsTerminal(RunJob(sum, Inputs(input, qs), world).status)
    ensures RunJob(sum, Inputs(input, ps), world) == RunJob(sum, Inputs(input, qs), world)
  {
    hide ReconcileJob, RunJob, Inputs, Sum, Invokes, Open;
    RunIsOnePass(sum, input, ps, world);
    RunIsOnePass(sum, input, qs, world);
    SumPositive(ps);
    SumPositive(qs);
    if Sum(ps) < Sum(qs) {
      LongerTerminalPass(sum, input, Sum(ps), Sum(qs), world);
    } else if Sum(qs) < Sum(ps) {
      LongerTerminalPass(sum, input, Sum(qs), Sum(ps), world);
    }
  }

  lemma {:induction false} LongerTerminalPass(sum: Bytes -> string, input: PassInput, p: int, q: int, world: World)
    requires Invokes(input) && Open(input, world.status) && 1 <= p < q
    requires IsTerminal(ReconcileJob(sum, WithParallelism(input, p), world.status, world.log).status)
    ensures var short := ReconcileJob(sum, WithParallelism(input, p), world.status, world.log);
            var long := ReconcileJob(sum, WithParallelism(input, q), world.status, world.log);
            short.status == long.status && short.log == long.log
  {
    hide ReconcileJob;
    var short := ReconcileJob(sum, WithParallelism(input, p), world.status, world.log);
    PassesCompose(sum, input, p, q - p, world.status, world.log);
    TerminalAbsorbs(sum, WithParallelism(input, q - p), short.status, short.log);
  }

  function Copies(p: int, k: nat): seq<int> { if k == 0 then [] else [p] + Copies(p, k - 1) }

  lemma {:induction false} SumCopies(p: int, k: nat)
    ensures Sum(Copies(p, k)) == k * p && |Copies(p, k)| == k
    ensures forall i :: 0 <= i < k ==> Copies(p, k)[i] == p
  {
    if k > 0 {
      SumCopies(p, k - 1);
      assert Copies(p, k)[1..] == Copies(p, k - 1);
    }
  }

  /** One pass of parallelism p ends the job exactly when p covers every runnable payload. */
  lemma {:induction false} OnePassProgress(sum: Bytes -> string, input: PassInput, p: int, status: JobStatus, log: Log)
    requires Invokes(input) && Open(input, status) && p >= 1
    ensures var after := ReconcileJob(sum, WithParallelism(input, p), status, log).status;
            var runnable := CountRunnable(EnsureStatuses(sum, status.statuses, input.spec.InlinePayloads()), input.spec.DesiredRetryLimit());
            && (after.phase == Running <==> p < runnable)
            && (IsTerminal(after) <==> p >= runnable)
  {
    hide ReconcileJob, InvokeAndSummarize, Summarized, SweepPayloads, HasRunnable, Implemented, EnsureStatuses;
    var round := RoundOf(input);
    var prepared := Prepare(sum, input.generation, input.spec.InlinePayloads(), status);
    ParallelismIsTheLimit(sum, input, p, status, log);
    CompletedSweep(sum, round, p, prepared, log);
    SweepCount(round, prepared.statuses, 0, p, HeadOf(prepared), log);
    assert prepared.statuses[0..] == prepared.statuses;
    var final := InvokePrepared(round, p, prepared, log).statuses;
    assert final[0..] == final;
    CountRunnableZero(final, round.retryLimit);
  }

  lemma {:induction false} FreshRunnable(sum: Bytes -> string, payloads: seq<Bytes>, retryLimit: int)
    ensures CountRunnable(EnsureStatuses(sum, [], payloads), retryLimit) == |payloads|
  {
    CountRunnableZero(EnsureStatuses(sum, [], payloads), retryLimit);
  }

  /** Exact progress of a fresh job with n payloads and parallelism p: Running after every
      k passes with k * p < n, terminal after every k passes with k * p >= n, so exactly
      after ceil(n / p) passes. */
  lemma {:induction false} ExactProgress(sum: Bytes -> string, input: PassInput, p: int, k: nat)
    requires Invokes(input) && p >= 1 && k >= 1
    ensures var n := |input.spec.InlinePayloads()|;
            var status := RunJob(sum, Inputs(input, Copies(p, k)), World(FRESH_JOB, [])).status;
            && (k * p < n <==> status.phase == Running)
            && (k * p >= n <==> IsTerminal(status))
            && (k >= (n + p - 1) / p <==> IsTerminal(status))
  {
    hide ReconcileJob;
    var n := |input.spec.InlinePayloads()|;
    SumCopies(p, k);
    SumPositive(Copies(p, k));
    RunIsOnePass(sum, input, Copies(p, k), World(FRESH_JOB, []));
    OnePassProgress(sum, input, k * p, FRESH_JOB, []);
    FreshRunnable(sum, input.spec.InlinePayloads(), input.spec.DesiredRetryLimit());
    CeilingDivision(n, p, k);
  }

  lemma {:induction false} CeilingDivision(n: nat, p: int, k: nat)
    requires p >= 1
    ensures k >= (n + p - 1) / p <==> k * p >= n
  {
    var c := (n + p - 1) / p;
    assert n <= c * p < n + p;
    if k >= c {
      MultiplyMonotone(c, k, p);
    } else {
      MultiplyMonotone(k, c - 1, p);
      assert (c - 1) * p == c * p - p;
    }
  }

  lemma {:induction false} MultiplyMonotone(a: int, b: int, p: int)
    requires a <= b && p >= 0
    ensures a * p <= b * p
  {
    assert b * p - a * p == (b - a) * p;
  }
}
