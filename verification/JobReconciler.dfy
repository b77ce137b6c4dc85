/** The FunctionJob reconciler in the form the controller has: an object whose
    status the steps of a pass overwrite.  Every step is proved against its
    function in FunctionJobs. */
module JobReconciler {
  import opened Invocations
  import opened FunctionJobs

  lemma {:induction false} ByIndexSnoc(statuses: seq<InvocationStatus>, i: nat)
    requires i < |statuses|
    ensures ByIndex(statuses[..i + 1]) == ByIndex(statuses[..i])[statuses[i].index := statuses[i]]
  {
    assert statuses[..i + 1][..i] == statuses[..i];
  }

  lemma {:induction false} CountSnoc(statuses: seq<InvocationStatus>, i: nat)
    requires i < |statuses|
    ensures forall p :: CountPhase(statuses[..i + 1], p) == CountPhase(statuses[..i], p) + (if statuses[i].phase == p then 1 else 0)
    ensures CountRetries(statuses[..i + 1]) == CountRetries(statuses[..i]) + (if statuses[i].attempts > 1 then statuses[i].attempts - 1 else 0)
  {
    assert statuses[..i + 1][..i] == statuses[..i];
  }

  class FunctionJob {
    var status: JobStatus

    constructor (status: JobStatus)
      ensures this.status == status
    {
      this.status := status;
    }

    method EnsurePayloadStatuses(sum: Bytes -> string, payloads: seq<Bytes>)
      modifies this
      ensures status == old(status).(statuses := EnsureStatuses(sum, old(status.statuses), payloads))
    {
      var existingByIndex: map<int, InvocationStatus> := map[];
      for i := 0 to |status.statuses|
        invariant status == old(status)
        invariant existingByIndex == ByIndex(status.statuses[..i])
      {
        ByIndexSnoc(status.statuses, i);
        existingByIndex := existingByIndex[status.statuses[i].index := status.statuses[i]];
      }
      assert status.statuses[..|status.statuses|] == status.statuses;

      var next: seq<InvocationStatus> := [];
      for i := 0 to |payloads|
        invariant status == old(status)
        invariant next == EnsureStatuses(sum, status.statuses, payloads)[..i]
      {
        var digest := DigestPayload(sum, payloads[i]);
        var entry := FreshStatus(i, digest);
        if i in existingByIndex && existingByIndex[i].payloadDigest == digest {
          entry := existingByIndex[i];
        }
        if entry.payloadDigest == "" {
          entry := entry.(payloadDigest := digest);
        }
        if entry.phase == Unset {
          entry := entry.(phase := Pending);
        }
        next := next + [entry];
      }
      status := status.(statuses := next);
    }

    method RecomputeInvocationCounts()
      modifies this
      ensures status == RecomputeCounts(old(status))
    {
      var entries := status.statuses;
      var active, succeeded, failed, retries := 0, 0, 0, 0;
      for i := 0 to |entries|
        invariant status == old(status)
        invariant active == CountPhase(entries[..i], Running)
        invariant succeeded == CountPhase(entries[..i], Succeeded)
        invariant failed == CountPhase(entries[..i], Failed)
        invariant retries == CountRetries(entries[..i])
      {
        CountSnoc(entries, i);
        match entries[i].phase {
          case Running => active := active + 1;
          case Succeeded => succeeded := succeeded + 1;
          case Failed => failed := failed + 1;
          case _ =>
        }
        if entries[i].attempts > 1 {
          retries := retries + entries[i].attempts - 1;
        }
      }
      assert entries[..|entries|] == entries;
      status := status.(active := active, succeeded := succeeded, failed := failed, retries := retries);
    }

    /** One payload: mark its entry Running, then retry it. */
    static method InvokePayload(client: InvokerClient, round: Round, runnable: InvocationStatus, before: Head)
      returns (entry: InvocationStatus, head: Head, stopped: bool)
      requires round.invoke == client.answers && 0 <= runnable.index < |round.payloads|
      modifies client
      ensures Visit(entry, head, client.log, stopped) == VisitPayload(round, runnable.(phase := Running), before, old(client.log))
    {
      var maxAttempts := round.retryLimit + 1;
      entry, head, stopped := runnable.(phase := Running), before, false;
      ghost var goal := VisitPayload(round, entry, head, client.log);
      while entry.phase == Running && entry.attempts < maxAttempts
        invariant 0 <= entry.index < |round.payloads|
        invariant goal == if entry.phase == Running then VisitPayload(round, entry, head, client.log)
                          else Visit(entry, head, client.log, stopped)
        invariant entry.phase == Running ==> !stopped
        decreases entry.phase == Running, maxAttempts - entry.attempts
      {
        var answer := client.Invoke(Request(round.target, entry.index, round.payloads[entry.index], ""));
        if answer.AnswerNotImplemented? {
          entry, stopped := entry.(phase := Pending), true;
        } else {
          var response := answer.response;
          entry := entry.(attempts := entry.attempts + 1, invocationId := response.invocationId,
                          ociRequestId := response.ociRequestId, statusCode := response.statusCode);
          if response.ociRequestId != "" {
            head := head.(lastOciRequestId := response.ociRequestId);
          }
          if answer.AnswerOk? {
            entry := entry.(phase := Succeeded, error := "", completed := true);
          } else {
            entry := entry.(error := answer.message);
            head := head.(lastError := entry.error);
            if entry.attempts >= maxAttempts {
              entry := entry.(phase := Failed, completed := true);
            }
          }
        }
      }
    }

    method InvokeRunnablePayloads(client: InvokerClient, round: Round, limit: nat) returns (processed: nat, stopped: bool)
      requires round.invoke == client.answers
      requires InRange(status.statuses, |round.payloads|)
      modifies this, client
      ensures var sweep := InvokePrepared(round, limit, old(status), old(client.log));
              && status == SweepStatus(old(status), sweep)
              && client.log == sweep.log
              && processed == sweep.processed
              && stopped == sweep.stopped
    {
      var entries, head := status.statuses, HeadOf(status);
      ghost var goal := InvokePrepared(round, limit, status, client.log);
      processed, stopped := 0, false;
      var i := 0;
      while i < |entries| && processed < limit && !stopped
        invariant 0 <= i <= |entries| && processed <= limit && InRange(entries, |round.payloads|) && status == old(status)
        invariant goal == if stopped then Sweep(entries, head, client.log, processed, true)
                          else var rest := SweepPayloads(round, entries, i, limit - processed, head, client.log);
                               rest.(processed := processed + rest.processed)
      {
        if IsRunnable(entries[i], round.retryLimit) {
          processed := processed + 1;
          var entry;
          entry, head, stopped := InvokePayload(client, round, entries[i], head);
          entries := entries[i := entry];
        }
        i := i + 1;
      }
      status := status.(statuses := entries, lastError := head.lastError, lastOciRequestId := head.lastOciRequestId);
    }

    /** setJobConditions: the four conditions the summary speaks of, one after the other. */
    method SetJobConditions(pending: Option<Condition>, running: Option<Condition>, complete: Option<Condition>, failed: Option<Condition>)
      modifies this
      ensures status == SetConditions(old(status), pending, running, complete, failed)
    {
      status := status.(conditions := status.conditions.(pending := pending));
      status := status.(conditions := status.conditions.(running := running));
      status := status.(conditions := status.conditions.(complete := complete));
      status := status.(conditions := status.conditions.(failed := failed));
    }

    method SummarizeInvocationState(total: int)
      modifies this
      ensures status == Summarize(old(status), total)
      ensures total > 0 && old(status.failed) >= 0 ==>
                && (status.phase == Failed <==> old(status.failed) > 0 && old(status.succeeded) + old(status.failed) == total)
                && (status.phase == Succeeded <==> old(status.succeeded) == total)
    {
      var terminal := status.succeeded + status.failed == total;
      if total == 0 {
        status := status.(phase := Succeeded, completed := true);
        SetJobConditions(No("NoPayloads"), No("NoPayloads"), Yes("NoPayloads"), No("NoFailedInvocations"));
      } else if status.failed > 0 && terminal {
        status := status.(phase := Failed, completed := true);
        SetJobConditions(No("PayloadsTerminal"), No("PayloadsTerminal"), No("InvocationFailed"), Yes("InvocationFailed"));
      } else if status.succeeded == total {
        status := status.(phase := Succeeded);
        status := status.(lastError := "");
        status := status.(completed := true);
        SetJobConditions(No("AllInvocationsSucceeded"), No("AllInvocationsSucceeded"), Yes("AllInvocationsSucceeded"), No("NoFailedInvocations"));
      } else {
        status := status.(phase := Running, completed := false);
        SetJobConditions(No("FunctionReady"), Yes("PayloadsRemaining"), No("PayloadsRemaining"), No("PayloadsRemaining"));
      }
    }

    /** One pass: work on a copy of the status, then write the copy back. */
    method Reconcile(sum: Bytes -> string, spec: JobSpec, generation: int, lookup: FunctionLookup, client: InvokerClient?)
      returns (outcome: Outcome)
      modifies this, client
      ensures var input := PassInput(spec, generation, lookup, if client == null then None else Some(client.answers));
              var pass := ReconcileJob(sum, input, old(status), if client == null then [] else old(client.log));
              && status == pass.status
              && outcome == pass.outcome
              && (client != null ==> client.log == pass.log)
    {
      if IsTerminal(status) {
        return Done;
      }
      var desired := new FunctionJob(status.(observedGeneration := generation, started := true));
      if spec.functionName == "" {
        status := MarkInvalidRef(desired.status);
        return Done;
      }
      match lookup {
        case LookupFailed =>
          return Error;
        case NotFound =>
          status := MarkWaitingForFunction(desired.status, "FunctionNotFound");
          return Done;
        case Found(_, target, message) =>
          if !ReadyForInvocation(lookup) {
            status := MarkFunctionNotReady(desired.status, message);
            return Done;
          }
          desired.status := SetResolved(desired.status, Yes("FunctionReady"));
          var payloads := spec.InlinePayloads();
          desired.EnsurePayloadStatuses(sum, payloads);
          desired.RecomputeInvocationCounts();
          if client == null {
            status := MarkInvokerNotConfigured(desired.status);
            return Done;
          }
          var processed, stopped := desired.InvokeRunnablePayloads(
            client, Round(client.answers, target, payloads, spec.DesiredRetryLimit()), spec.DesiredParallelism());
          if stopped {
            status := MarkInvokerNotConfigured(desired.status);
            return Done;
          }
          desired.RecomputeInvocationCounts();
          desired.SummarizeInvocationState(|payloads|);
          status := desired.status;
          if status.phase == Running && HasRunnable(status.statuses, spec.DesiredRetryLimit()) {
            return Requeue;
          }
          return Done;
      }
    }
  }
}
