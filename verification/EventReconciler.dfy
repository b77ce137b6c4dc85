/** The FunctionEvent reconciler in the form the controller has.  Every step is proved
    against its function in FunctionEvents. */
module EventReconciler {
  import opened Invocations
  import opened TriggerRouting
  import opened FunctionEvents
  import Strings

  lemma {:induction false} ByNameSnoc(invocations: seq<TriggerInvocation>, i: nat)
    requires i < |invocations|
    ensures ByName(invocations[..i + 1]) == ByName(invocations[..i])[invocations[i].triggerName := invocations[i]]
    ensures Indexes(invocations[..i + 1]) == Indexes(invocations[..i])[invocations[i].triggerName := i]
    ensures forall p :: CountPhase(invocations[..i + 1], p) == CountPhase(invocations[..i], p) + (if invocations[i].phase == p then 1 else 0)
  {
    assert invocations[..i + 1][..i] == invocations[..i];
  }

  /** Names are distinct and stand at the positions of their triggers. */
  predicate Positioned(invocations: seq<TriggerInvocation>, triggers: seq<Trigger>) {
    |invocations| == |triggers| && forall i :: 0 <= i < |triggers| ==> invocations[i].triggerName == triggers[i].name
  }

  /** The index map is the position. */
  lemma {:induction false} IndexIsPosition(invocations: seq<TriggerInvocation>)
    requires forall i, j :: 0 <= i < j < |invocations| ==> invocations[i].triggerName != invocations[j].triggerName
    ensures forall i :: 0 <= i < |invocations| ==>
              invocations[i].triggerName in Indexes(invocations) && Indexes(invocations)[invocations[i].triggerName] == i
  {
    if invocations != [] {
      IndexIsPosition(invocations[..|invocations| - 1]);
    }
  }

  lemma {:induction false} SortedNamesDiffer(triggers: seq<Trigger>)
    requires StrictlySorted(triggers)
    ensures forall i, j :: 0 <= i < j < |triggers| ==> triggers[i].name != triggers[j].name
  {
    forall i, j | 0 <= i < j < |triggers| ensures triggers[i].name != triggers[j].name {
      Strings.LessIrreflexive(triggers[i].name);
    }
  }

  lemma {:induction false} CarriedOverInOrder(invocations: seq<TriggerInvocation>, triggers: seq<Trigger>)
    requires forall t :: t in triggers ==> t.name != ""
    ensures Positioned(EnsureInvocations(invocations, triggers), triggers)
  {
    forall i | 0 <= i < |triggers| ensures EnsureInvocations(invocations, triggers)[i].triggerName == triggers[i].name {
      assert triggers[i] in triggers;
    }
  }

  class FunctionEvent {
    var status: EventStatus

    constructor (status: EventStatus)
      ensures this.status == status
    {
      this.status := status;
    }

    method EnsureInvocationStatuses(triggers: seq<Trigger>)
      modifies this
      ensures status == old(status).(invocations := EnsureInvocations(old(status.invocations), triggers))
    {
      var invocations := status.invocations;
      var existing: map<string, TriggerInvocation> := map[];
      for i := 0 to |invocations|
        invariant existing == ByName(invocations[..i]) && status == old(status)
      {
        ByNameSnoc(invocations, i);
        existing := existing[invocations[i].triggerName := invocations[i]];
      }
      assert invocations[..|invocations|] == invocations;

      var next: seq<TriggerInvocation> := [];
      for i := 0 to |triggers|
        invariant next == EnsureInvocations(invocations, triggers)[..i] && status == old(status)
      {
        var invocation := TriggerInvocation("", "", Unset, 0, false);
        if triggers[i].name in existing {
          invocation := existing[triggers[i].name];
        }
        if invocation.triggerName == "" {
          invocation := invocation.(triggerName := triggers[i].name, phase := Pending);
        }
        invocation := invocation.(functionName := triggers[i].functionName);
        if invocation.phase == Unset {
          invocation := invocation.(phase := Pending);
        }
        next := next + [invocation];
      }
      status := status.(invocations := next);
    }

    static method InvocationIndexes(invocations: seq<TriggerInvocation>) returns (indexes: map<string, nat>)
      ensures indexes == Indexes(invocations)
    {
      indexes := map[];
      for i := 0 to |invocations|
        invariant indexes == Indexes(invocations[..i])
      {
        ByNameSnoc(invocations, i);
        indexes := indexes[invocations[i].triggerName := i];
      }
      assert invocations[..|invocations|] == invocations;
    }

    /** Without an invoker every phase is overwritten, whatever it was. */
    static method ResetToPending(before: seq<TriggerInvocation>) returns (invocations: seq<TriggerInvocation>)
      ensures invocations == AllPending(before)
    {
      invocations := before;
      for i := 0 to |before|
        invariant invocations == AllPending(before)[..i] + before[i..]
      {
        invocations := invocations[i := invocations[i].(phase := Pending)];
      }
    }

    /** One attempt for a matched trigger that still needs one. */
    static method InvokeTrigger(client: InvokerClient, round: Round, index: nat, trigger: Trigger, before: TriggerInvocation)
      returns (invocation: TriggerInvocation, requeue: bool, end: End)
      requires round.invoke == client.answers
      modifies client
      ensures Visit(invocation, client.log, requeue, end) == VisitTrigger(round, index, trigger, before, old(client.log))
    {
      invocation, requeue, end := before, false, Completed;
      if invocation.phase == Succeeded || (invocation.phase == Failed && invocation.attempts >= RETRY_LIMIT) {
        return;
      }
      var lookup := round.lookups(trigger.name);
      if lookup.LookupFailed? {
        end := LookupError;
        return;
      }
      if lookup.NotFound? || !ReadyForInvocation(lookup) {
        invocation := invocation.(phase := Pending);
        requeue := true;
        return;
      }
      var answer := client.Invoke(Request(lookup.target, index, round.body, trigger.name));
      if answer.AnswerNotImplemented? {
        end := InvokerNotImplemented;
        return;
      }
      invocation := invocation.(attempts := invocation.attempts + 1, attempted := true);
      if answer.AnswerOk? {
        invocation := invocation.(phase := Succeeded);
      } else if invocation.attempts >= RETRY_LIMIT {
        invocation := invocation.(phase := Failed);
      } else {
        invocation := invocation.(phase := Pending);
        requeue := true;
      }
    }

    /** The matched triggers in turn, up to an error. */
    static method InvokeMatchedTriggers(client: InvokerClient, round: Round, triggers: seq<Trigger>, before: seq<TriggerInvocation>)
      returns (invocations: seq<TriggerInvocation>, requeue: bool, end: End)
      requires round.invoke == client.answers && Positioned(before, triggers) && StrictlySorted(triggers)
      modifies client
      ensures Walk(invocations, client.log, requeue, end) == WalkTriggers(round, triggers, 0, before, old(client.log), false)
    {
      invocations, requeue, end := before, false, Completed;
      var statusByTrigger := InvocationIndexes(before);
      SortedNamesDiffer(triggers);
      IndexIsPosition(before);
      hide VisitTrigger, StrictlySorted, Indexes;
      ghost var goal := WalkTriggers(round, triggers, 0, before, client.log, false);
      var i := 0;
      while i < |triggers| && end == Completed
        invariant 0 <= i <= |triggers| && |invocations| == |triggers|
        invariant goal == if end == Completed then WalkTriggers(round, triggers, i, invocations, client.log, requeue)
                          else Walk(invocations, client.log, requeue, end)
      {
        assert triggers[i].name == before[i].triggerName;
        var at := statusByTrigger[triggers[i].name];
        var invocation, again, stopped := InvokeTrigger(client, round, i, triggers[i], invocations[at]);
        invocations := invocations[at := invocation];
        requeue := stopped == Completed && (requeue || again);
        end := stopped;
        i := i + 1;
      }
    }

    method SummarizeEvent()
      modifies this
      ensures status == Summarize(old(status))
    {
      if |status.invocations| == 0 {
        status := MarkProcessed(status, "NoMatchingTriggers");
        return;
      }
      var invocations := status.invocations;
      var succeeded, failed, pending := 0, 0, 0;
      for i := 0 to |invocations|
        invariant succeeded == CountPhase(invocations[..i], Succeeded)
        invariant failed == CountPhase(invocations[..i], Failed)
        invariant pending == i - succeeded - failed
        invariant status == old(status)
      {
        ByNameSnoc(invocations, i);
        match invocations[i].phase {
          case Succeeded => succeeded := succeeded + 1;
          case Failed => failed := failed + 1;
          case _ => pending := pending + 1;
        }
      }
      assert invocations[..|invocations|] == invocations;
      if failed > 0 {
        status := MarkFailed(status, "InvocationFailed");
      } else if pending == 0 && succeeded == |invocations| {
        status := MarkProcessed(status, "AllInvocationsSucceeded");
      } else {
        status := MarkProcessing(status, "InvocationsPending");
      }
    }

    method Reconcile(generation: int, eventType: string, body: Option<Bytes>, listing: Option<seq<Trigger>>,
                     lookups: string -> FunctionLookup, client: InvokerClient?)
      returns (outcome: Outcome)
      requires listing.Some? ==> UniqueNames(listing.value) && forall t :: t in listing.value ==> t.name != ""
      modifies this, client
      ensures var input := EventInput(generation, eventType, body, listing, lookups, if client == null then None else Some(client.answers));
              var pass := ReconcileEvent(input, old(status), if client == null then [] else old(client.log));
              && status == pass.status
              && outcome == pass.outcome
              && (client != null ==> client.log == pass.log)
    {
      hide Matching, EnsureInvocations, IsFunctionEventType, WalkTriggers, Summarize, MarkProcessed, MarkProcessing, MarkFailed;
      if status.observedGeneration == generation && IsTerminal(status) {
        return Done;
      }
      var desired := new FunctionEvent(status.(observedGeneration := generation));
      if !IsFunctionEventType(eventType) {
        status := MarkFailed(desired.status, "InvalidEventType");
        return Done;
      }
      if listing.None? {
        return Error;
      }
      var triggers := MatchingTriggers(listing.value, eventType);
      if |triggers| == 0 {
        desired.status := desired.status.(matchedTriggers := [], invocations := []);
        status := MarkProcessed(desired.status, "NoMatchingTriggers");
        return Done;
      }
      desired.status := desired.status.(matchedTriggers := Names(triggers));
      desired.EnsureInvocationStatuses(triggers);
      var requeue := false;
      if client == null {
        var invocations := ResetToPending(desired.status.invocations);
        desired.status := MarkProcessing(desired.status.(invocations := invocations), "InvokerNotConfigured");
        requeue := true;
      } else if body.None? {
        desired.status := MarkFailed(desired.status, "InvalidPayload");
      } else {
        MatchingIsExact(listing.value, eventType);
        CarriedOverInOrder(old(status.invocations), triggers);
        var invocations, again, end := InvokeMatchedTriggers(client, Round(client.answers, body.value, lookups), triggers, desired.status.invocations);
        if end == LookupError {
          return Error;
        }
        desired.status := desired.status.(invocations := invocations);
        requeue := again;
        if end == InvokerNotImplemented {
          desired.status := MarkProcessing(desired.status, "InvokerNotConfigured");
          requeue := true;
        }
      }
      if desired.status.phase in {NoPhase, PhasePending, PhaseProcessing} {
        desired.SummarizeEvent();
      }
      status := desired.status;
      if status.phase == PhaseProcessed {
        return Done;
      }
      return if requeue then Backoff else Done;
    }
  }
}
