/** What the calls for a FunctionEvent send, and what the event reports of itself: over whole
    runs, read off the log and the inputs of the passes. */
module EventCalls {
  import opened Invocations
  import opened Strings
  import opened TriggerRouting
  import opened FunctionEvents
  import opened EventReconciler
  import opened EventRuns

  // ---------------------------------------------------------------- what is sent

  /** The trigger is one the event reaches. */
  ghost predicate Reached(input: EventInput, name: string) {
    input.listing.Some? &&
    exists t :: t in input.listing.value && t.name == name && t.isEnabled != Some(false) && ModeOf(t.eventTypes) == FunctionEventOnly
                && exists i :: 0 <= i < |t.eventTypes| && TrimSpace(t.eventTypes[i]) == TrimSpace(input.eventType)
  }

  predicate Invocable(lookup: FunctionLookup, target: Target) {
    lookup.Found? && lookup.ready && lookup.target == target && target.functionOCID != "" && target.invokeEndpoint != ""
  }

  /** A call that a pass makes: for a trigger that the event reaches, to the ready Function that
      was read for it, with the rendered event, answered by the pass's invoker. */
  ghost predicate MadeBy(input: EventInput, before: Log, call: Call) {
    && input.body == Some(call.request.body) && input.invoker.Some? && IsFunctionEventType(input.eventType)
    && Reached(input, call.request.origin)
    && Invocable(input.lookups(call.request.origin), call.request.target)
    && call.answer == input.invoker.value(before, call.request)
  }

  /** The calls of one walk: call for call the trigger at its index, and no index twice. */
  ghost predicate Extends(round: Round, triggers: seq<Trigger>, log: Log, longer: Log, least: int) {
    && log <= longer
    && (forall k :: |log| <= k < |longer| ==>
          && longer[k].request.index >= least && RightCall(round, triggers, longer[..k], longer[k]))
    && forall j, k :: |log| <= j < k < |longer| ==> longer[j].request.index < longer[k].request.index
  }

  ghost predicate RightCall(round: Round, triggers: seq<Trigger>, before: Log, call: Call) {
    && 0 <= call.request.index < |triggers| && triggers[call.request.index].name == call.request.origin
    && call.request.body == round.body && ReadyForInvocation(round.lookups(call.request.origin))
    && call.request.target == round.lookups(call.request.origin).target
    && call.answer == round.invoke(before, call.request)
  }

  /** A visit makes at most one call, and the right one. */
  lemma {:induction false} VisitSends(round: Round, triggers: seq<Trigger>, i: nat, invocation: TriggerInvocation, log: Log)
    requires i < |triggers|
    ensures var longer := VisitTrigger(round, i, triggers[i], invocation, log).log;
            longer == log || (|longer| == |log| + 1 && longer[..|log|] == log
                              && longer[|log|].request.index == i && RightCall(round, triggers, log, longer[|log|]))
  {
  }

  lemma {:induction false} WalkSends(round: Round, triggers: seq<Trigger>, i: nat, invocations: seq<TriggerInvocation>, log: Log, requeue: bool)
    requires |invocations| == |triggers|
    ensures Extends(round, triggers, log, WalkTriggers(round, triggers, i, invocations, log, requeue).log, i)
    decreases |triggers| - i
  {
    hide VisitTrigger, RightCall;
    if i < |triggers| {
      VisitSends(round, triggers, i, invocations[i], log);
      var visit := VisitTrigger(round, i, triggers[i], invocations[i], log);
      OneMore(round, triggers, log, visit.log, i);
      if visit.end == Completed {
        WalkSends(round, triggers, i + 1, invocations[i := visit.invocation], visit.log, requeue || visit.requeue);
        ExtendsFurther(round, triggers, log, visit.log, WalkTriggers(round, triggers, i, invocations, log, requeue).log, i);
      }
    }
  }

  lemma {:induction false} OneMore(round: Round, triggers: seq<Trigger>, log: Log, longer: Log, i: nat)
    requires longer == log || (|longer| == |log| + 1 && longer[..|log|] == log
                               && longer[|log|].request.index == i && RightCall(round, triggers, log, longer[|log|]))
    ensures Extends(round, triggers, log, longer, i)
    ensures forall k :: |log| <= k < |longer| ==> longer[k].request.index == i
  {
  }

  lemma {:induction false} ExtendsFurther(round: Round, triggers: seq<Trigger>, a: Log, b: Log, c: Log, i: nat)
    requires Extends(round, triggers, a, b, i) && Extends(round, triggers, b, c, i + 1)
    requires forall k :: |a| <= k < |b| ==> b[k].request.index == i
    ensures Extends(round, triggers, a, c, i)
  {
    forall k | |a| <= k < |c| ensures c[k].request.index >= i && RightCall(round, triggers, c[..k], c[k]) {
      if k < |b| {
        assert c[..k] == b[..k] && c[k] == b[k];
      }
    }
  }

  ghost predicate PassMade(input: EventInput, before: Log, after: Log) {
    && before <= after
    && (forall k :: |before| <= k < |after| ==> MadeBy(input, after[..k], after[k]))
    && forall j, k :: |before| <= j < k < |after| ==> Less(after[j].request.origin, after[k].request.origin)
  }

  /** What one pass sends, in the order of the triggers' names, and no trigger twice. */
  lemma {:induction false} PassSends(input: EventInput, status: EventStatus, log: Log)
    requires Named(input)
    ensures PassMade(input, log, ReconcileEvent(input, status, log).log)
  {
    hide WalkTriggers, Matching, EnsureInvocations, IsFunctionEventType, Summarize, Less, MadeBy, RightCall;
    var after := ReconcileEvent(input, status, log).log;
    if input.listing.Some? && input.invoker.Some? && input.body.Some? && after != log {
      var triggers := Matching(input.listing.value, input.eventType);
      var round := Round(input.invoker.value, input.body.value, input.lookups);
      CarryOverLength(status.invocations, triggers);
      WalkSends(round, triggers, 0, EnsureInvocations(status.invocations, triggers), log, false);
      SentInOrder(input, round, triggers, log, after);
    }
  }

  lemma {:induction false} SentInOrder(input: EventInput, round: Round, triggers: seq<Trigger>, log: Log, after: Log)
    requires Named(input) && input.listing.Some? && input.invoker.Some? && input.body.Some? && IsFunctionEventType(input.eventType)
    requires triggers == Matching(input.listing.value, input.eventType)
    requires round == Round(input.invoker.value, input.body.value, input.lookups)
    requires Extends(round, triggers, log, after, 0)
    ensures PassMade(input, log, after)
  {
    hide Matching, IsFunctionEventType, Less, ModeOf, TrimSpace;
    MatchingIsExact(input.listing.value, input.eventType);
    forall k | |log| <= k < |after| ensures MadeBy(input, after[..k], after[k]) {
      var index := after[k].request.index;
      assert triggers[index] in triggers;
    }
    forall j, k | |log| <= j < k < |after| ensures Less(after[j].request.origin, after[k].request.origin) {
      assert RightCall(round, triggers, after[..j], after[j]) && RightCall(round, triggers, after[..k], after[k]);
    }
  }

  ghost predicate MadeByOne(inputs: seq<EventInput>, before: Log, call: Call) {
    exists p :: 0 <= p < |inputs| && MadeBy(inputs[p], before, call)
  }

  lemma {:induction false} RunExtends(inputs: seq<EventInput>, world: World)
    requires forall p :: 0 <= p < |inputs| ==> Named(inputs[p])
    ensures var end := RunEvent(inputs, world).log;
            && world.log <= end
            && forall k :: |world.log| <= k < |end| ==> MadeByOne(inputs, end[..k], end[k])
  {
    hide ReconcileEvent, MadeBy, Named, Less;
    if inputs != [] {
      PassSends(inputs[0], world.status, world.log);
      var pass := ReconcileEvent(inputs[0], world.status, world.log);
      RunExtends(inputs[1..], World(pass.status, pass.log));
      var end := RunEvent(inputs, world).log;
      forall k | |world.log| <= k < |end| ensures MadeByOne(inputs, end[..k], end[k]) {
        if k < |pass.log| {
          assert end[..k] == pass.log[..k] && end[k] == pass.log[k];
          assert MadeBy(inputs[0], end[..k], end[k]);
        } else {
          var p :| 0 <= p < |inputs[1..]| && MadeBy(inputs[1..][p], end[..k], end[k]);
          assert inputs[p + 1] == inputs[1..][p];
        }
      }
    }
  }

  /** What a run sends.  Over every run from a fresh event, passes that are dropped included, each
      call is made by one of the passes: for a trigger that the event reaches in it, to the ready
      Function that was read for that trigger, with the rendered event. */
  lemma {:induction false} CallsReachTriggers(inputs: seq<EventInput>)
    requires forall p :: 0 <= p < |inputs| ==> Named(inputs[p])
    ensures var log := RunEvent(inputs, World(FRESH_EVENT, [])).log;
            forall k :: 0 <= k < |log| ==> MadeByOne(inputs, log[..k], log[k])
  {
    hide RunEvent, MadeByOne, Named;
    RunExtends(inputs, World(FRESH_EVENT, []));
  }

  // ---------------------------------------------------------------- the two conditions

  predicate Says(condition: Option<Condition>, holds: bool) { condition.Some? && condition.value.status == holds }

  /** Both conditions are present, and each is true exactly in the phase of its name. */
  predicate PhaseNamed(status: EventStatus) {
    Says(status.processed, status.phase == PhaseProcessed) && Says(status.failed, status.phase == PhaseFailed)
  }

  lemma {:induction false} ConcludeNames(status: EventStatus, log: Log, requeue: bool)
    requires status.phase !in {NoPhase, PhasePending, PhaseProcessing} ==> PhaseNamed(status)
    ensures PhaseNamed(Conclude(status, log, requeue).status)
  {
    hide CountPhase;
  }

  lemma {:induction false} PassNamesPhase(input: EventInput, status: EventStatus, log: Log)
    requires status.phase == NoPhase || PhaseNamed(status)
    ensures var after := ReconcileEvent(input, status, log).status; after == status || PhaseNamed(after)
  {
    hide WalkTriggers, Matching, EnsureInvocations, IsFunctionEventType, Conclude;
    if input.listing.Some? {
      var triggers := Matching(input.listing.value, input.eventType);
      CarryOverLength(status.invocations, triggers);
      var begun := Begin(input, status, triggers);
      ConcludeNames(MarkProcessing(begun.(invocations := AllPending(begun.invocations)), "InvokerNotConfigured"), log, true);
      ConcludeNames(MarkFailed(begun, "InvalidPayload"), log, false);
      if input.invoker.Some? && input.body.Some? {
        var walk := WalkTriggers(Round(input.invoker.value, input.body.value, input.lookups), triggers, 0, begun.invocations, log, false);
        var walked := begun.(invocations := walk.invocations);
        ConcludeNames(walked, walk.log, walk.requeue);
        ConcludeNames(MarkProcessing(walked, "InvokerNotConfigured"), walk.log, true);
      }
    }
  }

  predicate BecauseOf(condition: Option<Condition>, reason: string) { condition == Some(Condition(true, reason)) }

  /** The reasons of a summary: why the event has failed, is done, or is neither. */
  lemma {:induction false} SummaryReasons(status: EventStatus)
    requires status.invocations != []
    ensures var after := Summarize(status);
            && (after.phase == PhaseFailed ==> BecauseOf(after.failed, "InvocationFailed"))
            && (after.phase == PhaseProcessed ==> BecauseOf(after.processed, "AllInvocationsSucceeded"))
            && (after.phase == PhaseProcessing ==>
                  after.processed == after.failed == Some(Condition(false, "InvocationsPending")))
  {
    hide CountPhase;
  }

  /** After every run the conditions say what the phase says: Processed is true exactly if the
      event is Processed, Failed exactly if it is Failed. */
  lemma {:induction false} RunNamesPhase(inputs: seq<EventInput>, world: World)
    requires world.status.phase == NoPhase || PhaseNamed(world.status)
    ensures var end := RunEvent(inputs, world).status; end.phase == NoPhase || PhaseNamed(end)
  {
    hide ReconcileEvent, PhaseNamed;
    if inputs != [] {
      PassNamesPhase(inputs[0], world.status, world.log);
      var pass := ReconcileEvent(inputs[0], world.status, world.log);
      RunNamesPhase(inputs[1..], World(pass.status, pass.log));
    }
  }

  // ---------------------------------------------------------------- what a pass reports

  /** The entries belong to the matched triggers, one each, in the order of their names. */
  ghost predicate Lists(status: EventStatus, triggers: seq<Trigger>) {
    && |status.matchedTriggers| == |status.invocations| == |triggers|
    && forall i :: 0 <= i < |triggers| ==>
         && status.matchedTriggers[i] == triggers[i].name == status.invocations[i].triggerName
         && status.invocations[i].functionName == triggers[i].functionName
  }

  lemma {:induction false} CarriedOverLists(invocations: seq<TriggerInvocation>, triggers: seq<Trigger>)
    requires forall i :: 0 <= i < |triggers| ==> triggers[i].name != ""
    ensures var next := EnsureInvocations(invocations, triggers);
            |next| == |triggers| &&
            forall i :: 0 <= i < |triggers| ==> next[i].triggerName == triggers[i].name && next[i].functionName == triggers[i].functionName
  {
  }

  /** A walk keeps whose entry an entry is. */
  lemma {:induction false} WalkKeepsNames(round: Round, triggers: seq<Trigger>, i: nat, invocations: seq<TriggerInvocation>, log: Log, requeue: bool)
    requires |invocations| == |triggers|
    ensures var after := WalkTriggers(round, triggers, i, invocations, log, requeue).invocations;
            |after| == |triggers| &&
            forall k :: 0 <= k < |triggers| ==> after[k].triggerName == invocations[k].triggerName && after[k].functionName == invocations[k].functionName
    decreases |triggers| - i
  {
    if i < |triggers| {
      var visit := VisitTrigger(round, i, triggers[i], invocations[i], log);
      if visit.end == Completed {
        hide VisitTrigger;
        assert visit.invocation.triggerName == invocations[i].triggerName && visit.invocation.functionName == invocations[i].functionName by {
          VisitKeepsNames(round, i, triggers[i], invocations[i], log);
        }
        WalkKeepsNames(round, triggers, i + 1, invocations[i := visit.invocation], visit.log, requeue || visit.requeue);
      }
    }
  }

  lemma {:induction false} VisitKeepsNames(round: Round, i: nat, trigger: Trigger, invocation: TriggerInvocation, log: Log)
    ensures var after := VisitTrigger(round, i, trigger, invocation, log).invocation;
            after.triggerName == invocation.triggerName && after.functionName == invocation.functionName
  {
  }

  lemma {:induction false} ConcludeKeeps(status: EventStatus, log: Log, requeue: bool)
    ensures var after := Conclude(status, log, requeue);
            && after.log == log && after.status.invocations == status.invocations
            && after.status.matchedTriggers == status.matchedTriggers && after.status.observedGeneration == status.observedGeneration
  {
    hide CountPhase;
  }

  /** What a stored pass over an event of valid type reports: the generation it has seen and the
      triggers it has matched, with one entry for each, for the Function it names now. */
  lemma {:induction false} PassReports(input: EventInput, status: EventStatus, log: Log)
    requires Named(input) && IsFunctionEventType(input.eventType) && input.listing.Some?
    requires !(status.observedGeneration == input.generation && IsTerminal(status))
    ensures var pass := ReconcileEvent(input, status, log);
            pass.outcome != Error ==>
              pass.status.observedGeneration == input.generation && Lists(pass.status, Matching(input.listing.value, input.eventType))
  {
    hide WalkTriggers, Matching, EnsureInvocations, IsFunctionEventType, Conclude;
    var triggers := Matching(input.listing.value, input.eventType);
    MatchingIsExact(input.listing.value, input.eventType);
    CarriedOverLists(status.invocations, triggers) by {
      assert forall i :: 0 <= i < |triggers| ==> triggers[i] in triggers;
    }
    var begun := Begin(input, status, triggers);
    ConcludeKeeps(MarkProcessing(begun.(invocations := AllPending(begun.invocations)), "InvokerNotConfigured"), log, true);
    ConcludeKeeps(MarkFailed(begun, "InvalidPayload"), log, false);
    if input.invoker.Some? && input.body.Some? {
      var round := Round(input.invoker.value, input.body.value, input.lookups);
      WalkKeepsNames(round, triggers, 0, begun.invocations, log, false);
      var walk := WalkTriggers(round, triggers, 0, begun.invocations, log, false);
      var walked := begun.(invocations := walk.invocations);
      ConcludeKeeps(walked, walk.log, walk.requeue);
      ConcludeKeeps(MarkProcessing(walked, "InvokerNotConfigured"), walk.log, true);
    }
  }

  /** How a pass without a walk ends: an invalid type and a payload that cannot be rendered fail
      the event, an event that reaches nobody is done, and an unreadable listing is an error that
      changes nothing.  None of them calls anybody. */
  lemma {:induction false} PassWithoutWalk(input: EventInput, status: EventStatus, log: Log)
    requires !(status.observedGeneration == input.generation && IsTerminal(status))
    ensures var pass := ReconcileEvent(input, status, log);
            && (!IsFunctionEventType(input.eventType) ==>
                  pass.status.phase == PhaseFailed && pass.outcome == Done && pass.log == log
                  && pass.status.observedGeneration == input.generation && BecauseOf(pass.status.failed, "InvalidEventType"))
            && (IsFunctionEventType(input.eventType) && input.listing.None? ==> pass == EventPass(status, log, Error))
            && (IsFunctionEventType(input.eventType) && input.listing.Some? && (forall t :: t in input.listing.value ==> !Reached(input, t.name))
                && Named(input) ==>
                  pass.status.phase == PhaseProcessed && pass.status.invocations == [] && pass.outcome == Done && pass.log == log
                  && BecauseOf(pass.status.processed, "NoMatchingTriggers"))
            && (IsFunctionEventType(input.eventType) && input.listing.Some? && input.body.None? && input.invoker.Some?
                && Matching(input.listing.value, input.eventType) != [] ==>
                  pass.status.phase == PhaseFailed && pass.outcome == Done && pass.log == log
                  && BecauseOf(pass.status.failed, "InvalidPayload"))
  {
    hide WalkTriggers, Matching, EnsureInvocations, IsFunctionEventType, ModeOf, TrimSpace;
    if input.listing.Some? && Named(input) {
      MatchingIsExact(input.listing.value, input.eventType);
      var triggers := Matching(input.listing.value, input.eventType);
      if triggers != [] {
        assert triggers[0] in triggers;
        assert Reached(input, triggers[0].name);
      }
    }
  }

  /** How a pass without an implemented invoker ends: the event is open again, whatever phase was
      stored, and asks to be run again. */
  lemma {:induction false} PassWithoutInvoker(input: EventInput, status: EventStatus, log: Log)
    requires !(status.observedGeneration == input.generation && IsTerminal(status)) && IsFunctionEventType(input.eventType)
    requires input.listing.Some? && Matching(input.listing.value, input.eventType) != [] && input.invoker.None?
    ensures var pass := ReconcileEvent(input, status, log);
            && pass.outcome == Backoff && pass.status.phase == PhaseProcessing && pass.log == log
            && forall k :: 0 <= k < |pass.status.invocations| ==> pass.status.invocations[k].phase == Pending
  {
    hide Matching, EnsureInvocations, IsFunctionEventType, CountPhase;
    var triggers := Matching(input.listing.value, input.eventType);
    CarryOverLength(status.invocations, triggers);
    var invocations := AllPending(EnsureInvocations(status.invocations, triggers));
    CountsByPhase(invocations);
    assert invocations[0].phase == Pending;
  }

  /** One that finds the invoker not implemented is stored, with the phase its invocations earn,
      and asks to be run again. */
  lemma {:induction false} NotImplementedPass(input: EventInput, status: EventStatus, log: Log)
    ensures var pass := ReconcileEvent(input, status, log);
            |pass.log| > |log| && pass.log[|pass.log| - 1].answer.AnswerNotImplemented? ==>
              && pass.outcome == Backoff && Summarized(pass.status) && pass.status.phase != PhaseProcessed
  {
    hide WalkTriggers, Matching, EnsureInvocations, IsFunctionEventType, Summarize, Summarized;
    var pass := ReconcileEvent(input, status, log);
    if |pass.log| > |log| && pass.log[|pass.log| - 1].answer.AnswerNotImplemented? {
      var triggers := Matching(input.listing.value, input.eventType);
      CarryOverLength(status.invocations, triggers);
      var begun := Begin(input, status, triggers);
      var round := Round(input.invoker.value, input.body.value, input.lookups);
      var walk := WalkTriggers(round, triggers, 0, begun.invocations, log, false);
      StoppedWalk(round, triggers, 0, begun.invocations, log, false);
      var marked := MarkProcessing(begun.(invocations := walk.invocations), "InvokerNotConfigured");
      SummarizeSays(marked);
      PendingIsOpen(Summarize(marked));
    }
  }

  lemma {:induction false} PendingIsOpen(status: EventStatus)
    requires Summarized(status)
    ensures (exists k :: 0 <= k < |status.invocations| && status.invocations[k].phase != Succeeded) ==> status.phase != PhaseProcessed
  {
  }

  lemma {:induction false} StoppedWalk(round: Round, triggers: seq<Trigger>, i: nat, invocations: seq<TriggerInvocation>, log: Log, requeue: bool)
    requires |invocations| == |triggers|
    requires var longer := WalkTriggers(round, triggers, i, invocations, log, requeue).log;
             |longer| > |log| && longer[|longer| - 1].answer.AnswerNotImplemented?
    ensures var walk := WalkTriggers(round, triggers, i, invocations, log, requeue);
            walk.end == InvokerNotImplemented
            && exists k :: 0 <= k < |walk.invocations| && walk.invocations[k].phase != Succeeded
    decreases |triggers| - i
  {
    hide RightCall, ReadyForInvocation;
    if i < |triggers| {
      var visit := VisitTrigger(round, i, triggers[i], invocations[i], log);
      var updated := invocations[i := visit.invocation];
      if visit.end == Completed {
        WalkSends(round, triggers, i + 1, updated, visit.log, requeue || visit.requeue);
        StoppedWalk(round, triggers, i + 1, updated, visit.log, requeue || visit.requeue);
      } else {
        assert updated[i] == visit.invocation;
      }
    }
  }
}
