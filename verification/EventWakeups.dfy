/** What the phase of a FunctionEvent says, and which passes ask to be run again. */
module EventWakeups {
  import opened Invocations
  import opened TriggerRouting
  import opened FunctionEvents
  import opened EventReconciler
  import opened EventRuns

  // ---------------------------------------------------------------- no lost wakeup

  /** A walk that asks for no requeue leaves nobody pending. */
  lemma {:induction false} PendingMeansRequeue(round: Round, triggers: seq<Trigger>, i: nat, invocations: seq<TriggerInvocation>, log: Log, requeue: bool, k: nat)
    requires |invocations| == |triggers| && k < |triggers|
    requires k < i ==> requeue || invocations[k].phase in {Succeeded, Failed}
    ensures var walk := WalkTriggers(round, triggers, i, invocations, log, requeue);
            && |walk.invocations| == |triggers|
            && (walk.end == Completed && !walk.requeue ==> walk.invocations[k].phase in {Succeeded, Failed})
    decreases |triggers| - i
  {
    if i < |triggers| {
      var visit := VisitTrigger(round, i, triggers[i], invocations[i], log);
      if visit.end == Completed {
        PendingMeansRequeue(round, triggers, i + 1, invocations[i := visit.invocation], visit.log, requeue || visit.requeue, k);
      }
    }
  }

  predicate SomePending(invocations: seq<TriggerInvocation>) {
    exists k :: 0 <= k < |invocations| && invocations[k].phase !in {Succeeded, Failed}
  }

  /** A walk that ends with somebody pending asks for a requeue. */
  lemma {:induction false} WalkWakes(round: Round, triggers: seq<Trigger>, invocations: seq<TriggerInvocation>, log: Log)
    requires |invocations| == |triggers|
    ensures var walk := WalkTriggers(round, triggers, 0, invocations, log, false);
            walk.end == Completed && SomePending(walk.invocations) ==> walk.requeue
  {
    hide WalkTriggers;
    var walk := WalkTriggers(round, triggers, 0, invocations, log, false);
    if SomePending(walk.invocations) {
      var k :| 0 <= k < |walk.invocations| && walk.invocations[k].phase !in {Succeeded, Failed};
      WalkLength(round, triggers, 0, invocations, log, false);
      PendingMeansRequeue(round, triggers, 0, invocations, log, false, k);
    }
  }

  lemma {:induction false} WalkLength(round: Round, triggers: seq<Trigger>, i: nat, invocations: seq<TriggerInvocation>, log: Log, requeue: bool)
    requires |invocations| == |triggers|
    ensures |WalkTriggers(round, triggers, i, invocations, log, requeue).invocations| == |triggers|
    decreases |triggers| - i
  {
    hide VisitTrigger;
    if i < |triggers| {
      var visit := VisitTrigger(round, i, triggers[i], invocations[i], log);
      if visit.end == Completed {
        WalkLength(round, triggers, i + 1, invocations[i := visit.invocation], visit.log, requeue || visit.requeue);
      }
    }
  }

  /** A pass over an open event, with an invoker. */
  predicate Routes(input: EventInput, status: EventStatus) {
    input.invoker.Some? && !IsTerminal(status)
  }

  lemma {:induction false} SummaryOfPending(status: EventStatus)
    ensures Summarized(Summarize(status)) && Summarize(status).invocations == status.invocations
    ensures Summarize(status).phase == PhaseProcessing ==> SomePending(status.invocations)
  {
    hide Summarize;
    SummarizeSays(status);
    if !SomePending(status.invocations) {
      assert forall k :: 0 <= k < |status.invocations| ==> status.invocations[k].phase in {Succeeded, Failed};
    }
  }

  lemma {:induction false} InvokeMatchedOutcome(round: Round, triggers: seq<Trigger>, begun: EventStatus, stored: EventStatus, log: Log)
    requires |begun.invocations| == |triggers| && begun.phase in {NoPhase, PhasePending, PhaseProcessing}
    ensures var pass := InvokeMatched(round, triggers, begun, stored, log);
            pass.outcome != Error ==>
              && Summarized(pass.status)
              && (!IsTerminal(pass.status) ==> pass.outcome == Backoff)
  {
    hide WalkTriggers, Summarize, Summarized, SomePending;
    var walk := WalkTriggers(round, triggers, 0, begun.invocations, log, false);
    var walked := begun.(invocations := walk.invocations);
    WalkWakes(round, triggers, begun.invocations, log);
    SummaryOfPending(walked);
    SummaryOfPending(MarkProcessing(walked, "InvokerNotConfigured"));
    SummarizedPhase(Summarize(walked));
  }

  lemma {:induction false} SummarizedPhase(status: EventStatus)
    requires Summarized(status)
    ensures IsTerminal(status) || status.phase == PhaseProcessing
  {
  }

  /** No lost wakeup: a persisted pass that leaves the event open asks to be run again after
      the backoff.  And the phase it leaves behind is earned: Processed with every invocation
      succeeded or none matched, Failed exactly by an invalid event or a failed invocation. */
  lemma {:induction false} NoLostWakeup(input: EventInput, status: EventStatus, log: Log)
    requires Routes(input, status)
    ensures var pass := ReconcileEvent(input, status, log);
            pass.outcome != Error ==>
              && (!IsTerminal(pass.status) ==> pass.outcome == Backoff)
              && (pass.status.phase == PhaseProcessed ==>
                    forall k :: 0 <= k < |pass.status.invocations| ==> pass.status.invocations[k].phase == Succeeded)
              && (IsFunctionEventType(input.eventType) && input.body.Some? ==>
                    (pass.status.phase == PhaseFailed <==>
                       exists k :: 0 <= k < |pass.status.invocations| && pass.status.invocations[k].phase == Failed))
  {
    hide InvokeMatched, Matching, EnsureInvocations, IsFunctionEventType;
    if IsFunctionEventType(input.eventType) && input.listing.Some? && input.body.Some? {
      var triggers := Matching(input.listing.value, input.eventType);
      assert |EnsureInvocations(status.invocations, triggers)| == |triggers| by { CarryOverLength(status.invocations, triggers); }
      var begun := Begin(input, status, triggers);
      InvokeMatchedOutcome(Round(input.invoker.value, input.body.value, input.lookups), triggers, begun, status, log);
    }
  }

  // ---------------------------------------------------------------- phases of an older generation

  /** A pass that reaches the triggers, with an invoker that is implemented. */
  ghost predicate Walks(input: EventInput, status: EventStatus) {
    && !(status.observedGeneration == input.generation && IsTerminal(status))
    && IsFunctionEventType(input.eventType) && input.listing.Some? && input.body.Some?
    && Matching(input.listing.value, input.eventType) != []
    && input.invoker.Some? && Implemented(input.invoker.value)
  }

  /** Such a pass is its walk. */
  lemma {:induction false} WalkingPass(input: EventInput, status: EventStatus, log: Log)
    requires Walks(input, status)
    ensures var triggers := Matching(input.listing.value, input.eventType);
            var before := EnsureInvocations(status.invocations, triggers);
            && |before| == |triggers|
            && var walk := WalkTriggers(Round(input.invoker.value, input.body.value, input.lookups), triggers, 0, before, log, false);
               var walked := Begin(input, status, triggers).(invocations := walk.invocations);
               walk.end != InvokerNotImplemented && ReconcileEvent(input, status, log) ==
                 if walk.end == LookupError then EventPass(status, walk.log, Error) else Conclude(walked, walk.log, walk.requeue)
  {
    hide WalkTriggers, Matching, IsFunctionEventType, Conclude;
    var triggers := Matching(input.listing.value, input.eventType);
    CarryOverLength(status.invocations, triggers);
    ImplementedWalk(Round(input.invoker.value, input.body.value, input.lookups), triggers, 0, EnsureInvocations(status.invocations, triggers), log, false);
  }

  lemma {:induction false} ImplementedWalk(round: Round, triggers: seq<Trigger>, i: nat, invocations: seq<TriggerInvocation>, log: Log, requeue: bool)
    requires |invocations| == |triggers| && Implemented(round.invoke)
    ensures WalkTriggers(round, triggers, i, invocations, log, requeue).end != InvokerNotImplemented
    decreases |triggers| - i
  {
    if i < |triggers| {
      var visit := VisitTrigger(round, i, triggers[i], invocations[i], log);
      if visit.end == Completed {
        ImplementedWalk(round, triggers, i + 1, invocations[i := visit.invocation], visit.log, requeue || visit.requeue);
      }
    }
  }

  /** Exactly when a pending invocation is waited for.  A pass that leaves one asks to be run
      again if and only if the stored phase is not Processed. */
  lemma {:induction false} WakesExactly(input: EventInput, status: EventStatus, log: Log)
    requires Walks(input, status)
    ensures var pass := ReconcileEvent(input, status, log);
            pass.outcome != Error && SomePending(pass.status.invocations) ==>
              (pass.outcome == Backoff <==> status.phase != PhaseProcessed)
  {
    hide WalkTriggers, Matching, IsFunctionEventType, Summarize, SomePending, EnsureInvocations, ReconcileEvent, Summarized;
    WalkingPass(input, status, log);
    var triggers := Matching(input.listing.value, input.eventType);
    var before := EnsureInvocations(status.invocations, triggers);
    var round := Round(input.invoker.value, input.body.value, input.lookups);
    WalkWakes(round, triggers, before, log);
    var walked := Begin(input, status, triggers).(invocations := WalkTriggers(round, triggers, 0, before, log, false).invocations);
    SummaryOfPending(walked);
    PendingIsNotProcessed(Summarize(walked));
  }

  lemma {:induction false} PendingIsNotProcessed(status: EventStatus)
    requires Summarized(status)
    ensures SomePending(status.invocations) ==> status.phase != PhaseProcessed
  {
  }

  /** A terminal phase of an older generation is kept by the pass that takes up the new one,
      whatever that pass does.  From then on it is the phase of the new generation: no later
      pass calls anybody or changes anything.  So even where such a pass asks to be run again,
      as it does after Failed, its pending invocations are never retried. */
  lemma {:induction false} StalePhaseIsFinal(input: EventInput, later: seq<EventInput>, status: EventStatus, log: Log)
    requires Walks(input, status) && IsTerminal(status)
    requires forall k :: 0 <= k < |later| ==> later[k].generation == input.generation
    ensures var pass := ReconcileEvent(input, status, log);
            pass.outcome != Error ==>
              && pass.status.phase == status.phase && pass.status.observedGeneration == input.generation
              && RunEvent(later, World(pass.status, pass.log)) == World(pass.status, pass.log)
              && (later != [] ==> ReconcileEvent(later[0], pass.status, pass.log) == EventPass(pass.status, pass.log, Done))
  {
    hide WalkTriggers, Matching, IsFunctionEventType, Summarize, EnsureInvocations, ReconcileEvent, RunEvent;
    WalkingPass(input, status, log);
    var pass := ReconcileEvent(input, status, log);
    if pass.outcome != Error {
      ClosedRun(later, World(pass.status, pass.log));
      if later != [] {
        ClosedPass(later[0], pass.status, pass.log);
      }
    }
  }

  lemma {:induction false} ClosedPass(input: EventInput, status: EventStatus, log: Log)
    requires IsTerminal(status) && input.generation == status.observedGeneration
    ensures ReconcileEvent(input, status, log) == EventPass(status, log, Done)
  {
  }

  /** A closed event stays closed while its generation lasts. */
  lemma {:induction false} ClosedRun(inputs: seq<EventInput>, world: World)
    requires IsTerminal(world.status)
    requires forall k :: 0 <= k < |inputs| ==> inputs[k].generation == world.status.observedGeneration
    ensures RunEvent(inputs, world) == world
  {
    if inputs != [] {
      ClosedPass(inputs[0], world.status, world.log);
      ClosedRun(inputs[1..], world);
    }
  }

  /** A trigger that names one event type and is enabled. */
  function PlainTrigger(name: string, functionName: string, eventType: string): Trigger {
    Trigger(name, None, functionName, [eventType], "", "", false)
  }

  lemma {:induction false} PlainIsSelected(name: string, functionName: string, eventType: string)
    requires IsFunctionEventType(eventType)
    ensures Selected(PlainTrigger(name, functionName, eventType), eventType)
  {
    hide IsFunctionEventType;
    var trigger := PlainTrigger(name, functionName, eventType);
    assert [eventType][1..] == [];
    assert Scan([], true, false) == FunctionEventOnly;
    assert Scan([eventType], false, false) == Scan([eventType][1..], true, false);
    assert NamesEvent(trigger.eventTypes, eventType) by {
      assert trigger.eventTypes[0] == eventType;
    }
  }

  lemma {:induction false} MatchingOne(trigger: Trigger, eventType: string)
    requires Selected(trigger, eventType)
    ensures Matching([trigger], eventType) == [trigger]
  {
    hide Selected;
    assert [trigger][..0] == [] && [trigger][1..] == [];
    assert Select([trigger], eventType) == Select([trigger][..0], eventType) + [trigger] == [trigger];
    assert SortByName([trigger]) == Insert(trigger, SortByName([trigger][1..])) == [trigger];
  }

  /** A lost wakeup, as a run.  An event that matched nobody in its first generation is
      Processed; in its second generation it matches a trigger whose Function does not exist
      yet; the pass leaves the invocation pending and asks for nothing. */
  lemma {:induction false} SleepsWithPending(eventType: string, name: string, functionName: string, body: Bytes, invoke: Invoker)
    requires IsFunctionEventType(eventType) && name != "" && Implemented(invoke)
    ensures var trigger := PlainTrigger(name, functionName, eventType);
            var first := EventInput(1, eventType, Some(body), Some([]), _ => NotFound, Some(invoke));
            var second := EventInput(2, eventType, Some(body), Some([trigger]), _ => NotFound, Some(invoke));
            var processed := RunEvent([first], World(FRESH_EVENT, []));
            var pass := ReconcileEvent(second, processed.status, processed.log);
            && pass.outcome == Done && pass.status.phase == PhaseProcessed && pass.log == []
            && pass.status.invocations == [TriggerInvocation(name, functionName, Pending, 0, false)]
  {
    hide IsFunctionEventType;
    var trigger := PlainTrigger(name, functionName, eventType);
    var first := EventInput(1, eventType, Some(body), Some([]), _ => NotFound, Some(invoke));
    var second := EventInput(2, eventType, Some(body), Some([trigger]), _ => NotFound, Some(invoke));
    var processed := MarkProcessed(EventStatus(1, NoPhase, [], [], None, None), "NoMatchingTriggers");
    assert Matching([], eventType) == [];
    assert ReconcileEvent(first, FRESH_EVENT, []) == EventPass(processed, [], Done);
    assert [first][1..] == [];
    assert RunEvent([first], World(FRESH_EVENT, [])) == World(processed, []);
    PlainIsSelected(name, functionName, eventType);
    MatchingOne(trigger, eventType);
    hide Matching;
    var before := EnsureInvocations([], [trigger]);
    assert before == [TriggerInvocation(name, functionName, Pending, 0, false)] by { NothingByName(); }
    WalkingPass(second, processed, []);
    var round := Round(invoke, body, _ => NotFound);
    assert VisitTrigger(round, 0, trigger, before[0], []) == Visit(before[0], [], true, Completed);
    assert before[0 := before[0]] == before;
    assert WalkTriggers(round, [trigger], 0, before, [], false) == Walk(before, [], true, Completed);
  }

  // ---------------------------------------------------------------- what Failed means

  /** The budget an entry's phase stands for. */
  predicate Budgeted(invocation: TriggerInvocation) {
    match invocation.phase
    case Succeeded => true
    case Failed => invocation.attempts >= RETRY_LIMIT
    case _ => invocation.attempts < RETRY_LIMIT
  }

  predicate AllBudgeted(invocations: seq<TriggerInvocation>) { forall k :: 0 <= k < |invocations| ==> Budgeted(invocations[k]) }

  lemma {:induction false} ByNameIsIn(invocations: seq<TriggerInvocation>)
    ensures forall n :: n in ByName(invocations) ==> ByName(invocations)[n] in invocations
  {
    if invocations != [] {
      ByNameIsIn(invocations[..|invocations| - 1]);
    }
  }

  lemma {:induction false} CarryOverBudgeted(invocations: seq<TriggerInvocation>, triggers: seq<Trigger>)
    requires AllBudgeted(invocations) && forall t :: t in triggers ==> t.name != ""
    ensures AllBudgeted(EnsureInvocations(invocations, triggers))
  {
    ByNameIsIn(invocations);
    forall n | n in ByName(invocations) ensures Budgeted(ByName(invocations)[n]) {
      var k :| 0 <= k < |invocations| && invocations[k] == ByName(invocations)[n];
      assert Budgeted(invocations[k]);
    }
    forall i | 0 <= i < |triggers| ensures Budgeted(EnsureInvocations(invocations, triggers)[i]) {
      assert triggers[i] in triggers;
    }
  }

  lemma {:induction false} WalkBudgeted(round: Round, triggers: seq<Trigger>, i: nat, invocations: seq<TriggerInvocation>, log: Log, requeue: bool)
    requires |invocations| == |triggers| && AllBudgeted(invocations)
    ensures AllBudgeted(WalkTriggers(round, triggers, i, invocations, log, requeue).invocations)
    decreases |triggers| - i
  {
    if i < |triggers| {
      var visit := VisitTrigger(round, i, triggers[i], invocations[i], log);
      if visit.end == Completed {
        WalkBudgeted(round, triggers, i + 1, invocations[i := visit.invocation], visit.log, requeue || visit.requeue);
      }
    }
  }

  lemma {:induction false} MatchingNamed(listing: seq<Trigger>, eventType: string)
    requires UniqueNames(listing) && forall t :: t in listing ==> t.name != ""
    ensures forall t :: t in Matching(listing, eventType) ==> t.name != ""
  {
    MatchingIsExact(listing, eventType);
  }

  lemma {:induction false} PassBudgeted(input: EventInput, status: EventStatus, log: Log)
    requires input.invoker.Some? && Named(input) && AllBudgeted(status.invocations)
    ensures AllBudgeted(ReconcileEvent(input, status, log).status.invocations)
  {
    hide WalkTriggers, Matching, IsFunctionEventType, CountPhase, EnsureInvocations, Budgeted;
    if input.listing.Some? {
      var triggers := Matching(input.listing.value, input.eventType);
      CarryOverLength(status.invocations, triggers);
      MatchingNamed(input.listing.value, input.eventType);
      CarryOverBudgeted(status.invocations, triggers);
      if input.body.Some? {
        WalkBudgeted(Round(input.invoker.value, input.body.value, input.lookups), triggers, 0, EnsureInvocations(status.invocations, triggers), log, false);
      }
    }
  }

  /** All attempts used, without success. */
  predicate SomeUsedUp(invocations: seq<TriggerInvocation>) {
    exists k :: 0 <= k < |invocations| && invocations[k].phase != Succeeded && invocations[k].attempts >= 3
  }

  /** Inputs of passes over one event: one generation, a valid type, a payload that can be
      rendered, and an invoker. */
  predicate SameEvent(input: EventInput, generation: int) {
    Named(input) && input.generation == generation && IsFunctionEventType(input.eventType) && input.body.Some? && input.invoker.Some?
  }

  predicate PhaseEarned(status: EventStatus) {
    && (status.phase == PhaseFailed <==> SomeUsedUp(status.invocations))
    && (status.phase == PhaseProcessed ==> forall k :: 0 <= k < |status.invocations| ==> status.invocations[k].phase == Succeeded)
    && (status.phase == PhaseProcessed <== status.phase != NoPhase && forall k :: 0 <= k < |status.invocations| ==> status.invocations[k].phase == Succeeded)
  }

  predicate EventKept(status: EventStatus, generation: int) {
    && AllBudgeted(status.invocations) && PhaseEarned(status)
    && (IsTerminal(status) ==> status.observedGeneration == generation)
  }

  lemma {:induction false} SummaryEarned(status: EventStatus)
    requires AllBudgeted(status.invocations) && Summarized(status)
    ensures PhaseEarned(status)
  {
    if SomeUsedUp(status.invocations) {
      var k :| 0 <= k < |status.invocations| && status.invocations[k].phase != Succeeded && status.invocations[k].attempts >= RETRY_LIMIT;
      assert Budgeted(status.invocations[k]);
      assert status.invocations[k].phase == Failed;
    }
  }

  lemma {:induction false} PassEarned(input: EventInput, generation: int, status: EventStatus, log: Log)
    requires SameEvent(input, generation) && EventKept(status, generation)
    ensures EventKept(ReconcileEvent(input, status, log).status, generation)
  {
    var pass := ReconcileEvent(input, status, log);
    PassBudgeted(input, status, log);
    hide AllBudgeted, PhaseEarned, InvokeMatched, Matching, IsFunctionEventType, EnsureInvocations, Summarized;
    if !IsTerminal(status) && input.listing.Some? {
      var triggers := Matching(input.listing.value, input.eventType);
      if triggers == [] {
        NobodyEarned(pass.status);
      } else {
        CarryOverLength(status.invocations, triggers);
        var begun := Begin(input, status, triggers);
        var round := Round(input.invoker.value, input.body.value, input.lookups);
        InvokeMatchedOutcome(round, triggers, begun, status, log);
        InvokeMatchedGeneration(round, triggers, begun, status, log);
        if pass.outcome != Error {
          SummaryEarned(pass.status);
        }
      }
    }
  }

  lemma {:induction false} NobodyEarned(status: EventStatus)
    requires status.phase == PhaseProcessed && status.invocations == []
    ensures PhaseEarned(status)
  {
  }

  lemma {:induction false} InvokeMatchedGeneration(round: Round, triggers: seq<Trigger>, begun: EventStatus, stored: EventStatus, log: Log)
    requires |begun.invocations| == |triggers|
    ensures var pass := InvokeMatched(round, triggers, begun, stored, log);
            if pass.outcome == Error then pass.status == stored else pass.status.observedGeneration == begun.observedGeneration
  {
    hide WalkTriggers, CountPhase;
  }

  lemma {:induction false} RunEarned(inputs: seq<EventInput>, generation: int, world: World)
    requires forall k :: 0 <= k < |inputs| ==> SameEvent(inputs[k], generation)
    requires EventKept(world.status, generation)
    ensures EventKept(RunEvent(inputs, world).status, generation)
  {
    hide ReconcileEvent, EventKept, SameEvent;
    if inputs != [] {
      PassEarned(inputs[0], generation, world.status, world.log);
      var pass := ReconcileEvent(inputs[0], world.status, world.log);
      RunEarned(inputs[1..], generation, World(pass.status, pass.log));
    }
  }

  /** In every run of one generation, persisted or not, the event is Failed exactly while some
      invocation has used all its attempts without success, and once it has a phase it is
      Processed exactly while every invocation has succeeded. */
  lemma {:induction false} FailedExactlyWhenUsedUp(inputs: seq<EventInput>, generation: int)
    requires forall k :: 0 <= k < |inputs| ==> SameEvent(inputs[k], generation)
    ensures var end := RunEvent(inputs, World(FRESH_EVENT, [])).status;
            && (end.phase == PhaseFailed <==> SomeUsedUp(end.invocations))
            && (end.phase != NoPhase ==>
                  (end.phase == PhaseProcessed <==> forall k :: 0 <= k < |end.invocations| ==> end.invocations[k].phase == Succeeded))
  {
    hide RunEvent, SameEvent;
    RunEarned(inputs, generation, World(FRESH_EVENT, []));
  }
}
