/** Whole runs of a FunctionEvent: how often a trigger is invoked and when the event closes. */
module EventRuns {
  import opened Invocations
  import opened TriggerRouting
  import opened FunctionEvents
  import opened EventReconciler

  /** The calls made for one trigger, in order. */
  function CallsFor(log: Log, name: string): seq<Call> {
    if log == [] then []
    else
      var last := log[|log| - 1];
      CallsFor(log[..|log| - 1], name) + (if last.request.origin == name then [last] else [])
  }

  /** An invocation entry tells the truth about the calls made for its trigger. */
  predicate Truthful(calls: seq<Call>, invocation: TriggerInvocation) {
    && invocation.attempts == Counted(calls) <= RETRY_LIMIT
    && (invocation.attempted <==> invocation.attempts > 0)
    && NothingAfterSuccess(calls)
    && match invocation.phase
       case Succeeded => EndsWithSuccess(calls)
       case Failed => !EndsWithSuccess(calls) && invocation.attempts == RETRY_LIMIT
       case Pending => !EndsWithSuccess(calls) && invocation.attempts < RETRY_LIMIT
       case Unset => false
  }

  lemma {:induction false} CallsForAppend(log: Log, call: Call, name: string)
    ensures CallsFor(log + [call], name) == if call.request.origin == name then CallsFor(log, name) + [call] else CallsFor(log, name)
  {
    assert (log + [call])[..|log|] == log;
  }

  // ---------------------------------------------------------------- one trigger, one walk

  /** The entry after a counted answer. */
  function AfterAnswer(invocation: TriggerInvocation, answer: Answer): TriggerInvocation {
    var counted := invocation.(attempts := invocation.attempts + 1, attempted := true);
    if answer.AnswerOk? then counted.(phase := Succeeded)
    else if counted.attempts >= RETRY_LIMIT then counted.(phase := Failed)
    else counted.(phase := Pending)
  }

  lemma {:induction false} AnswerTruthful(calls: seq<Call>, call: Call, invocation: TriggerInvocation)
    requires Truthful(calls, invocation) && !Exhausted(invocation)
    ensures if call.answer.AnswerNotImplemented? then Truthful(calls + [call], invocation)
            else Truthful(calls + [call], AfterAnswer(invocation, call.answer))
  {
    CountedAppend(calls, call);
  }

  lemma {:induction false} VisitTruthful(round: Round, index: nat, trigger: Trigger, invocation: TriggerInvocation, log: Log, name: string)
    requires trigger.name == name ==> Truthful(CallsFor(log, name), invocation)
    ensures var visit := VisitTrigger(round, index, trigger, invocation, log);
            && visit.invocation.triggerName == invocation.triggerName
            && (trigger.name == name ==> Truthful(CallsFor(visit.log, name), visit.invocation))
            && (trigger.name != name ==> CallsFor(visit.log, name) == CallsFor(log, name))
            && (invocation.phase == Succeeded ==> visit.invocation == invocation && visit.log == log)
  {
    hide CallsFor, Counted;
    var lookup := round.lookups(trigger.name);
    if !Exhausted(invocation) {
      if ReadyForInvocation(lookup) {
        hide Truthful;
        var request := Request(lookup.target, index, round.body, trigger.name);
        var call := Call(request, round.invoke(log, request));
        CallsForAppend(log, call, name);
        if trigger.name == name {
          AnswerTruthful(CallsFor(log, name), call, invocation);
        }
      }
    }
  }

  predicate Distinct(triggers: seq<Trigger>) {
    forall i, j :: 0 <= i < j < |triggers| ==> triggers[i].name != triggers[j].name
  }

  lemma {:induction false} WalkTruthful(round: Round, triggers: seq<Trigger>, i: nat, invocations: seq<TriggerInvocation>, log: Log, requeue: bool, k: nat)
    requires Positioned(invocations, triggers) && Distinct(triggers) && k < |triggers|
    requires Truthful(CallsFor(log, triggers[k].name), invocations[k])
    ensures var walk := WalkTriggers(round, triggers, i, invocations, log, requeue);
            && Positioned(walk.invocations, triggers)
            && Truthful(CallsFor(walk.log, triggers[k].name), walk.invocations[k])
    decreases |triggers| - i
  {
    hide VisitTrigger, Truthful, CallsFor;
    if i < |triggers| {
      VisitTruthful(round, i, triggers[i], invocations[i], log, triggers[k].name);
      var visit := VisitTrigger(round, i, triggers[i], invocations[i], log);
      assert triggers[i].name == triggers[k].name <==> i == k;
      if visit.end == Completed {
        WalkTruthful(round, triggers, i + 1, invocations[i := visit.invocation], visit.log, requeue || visit.requeue, k);
      }
    }
  }

  // ---------------------------------------------------------------- carry-over

  lemma {:induction false} ByNameAt(invocations: seq<TriggerInvocation>, triggers: seq<Trigger>)
    requires Positioned(invocations, triggers) && Distinct(triggers)
    ensures forall i :: 0 <= i < |triggers| ==> triggers[i].name in ByName(invocations) && ByName(invocations)[triggers[i].name] == invocations[i]
    ensures forall n :: n in ByName(invocations) ==> exists i :: 0 <= i < |triggers| && triggers[i].name == n
  {
    if invocations != [] {
      ByNameAt(invocations[..|invocations| - 1], triggers[..|triggers| - 1]);
    }
  }

  /** Entry i belongs to trigger i, an entry found by name is kept but for the Function it
      refers to, and a trigger without one starts afresh. */
  lemma {:induction false} CarryOverByName(invocations: seq<TriggerInvocation>, triggers: seq<Trigger>)
    requires forall t :: t in triggers ==> t.name != ""
    requires forall n :: n in ByName(invocations) ==> ByName(invocations)[n].phase != Unset
    ensures var next := EnsureInvocations(invocations, triggers);
            && Positioned(next, triggers)
            && forall i :: 0 <= i < |triggers| ==>
                 next[i] == if triggers[i].name in ByName(invocations)
                            then ByName(invocations)[triggers[i].name].(functionName := triggers[i].functionName)
                            else TriggerInvocation(triggers[i].name, triggers[i].functionName, Pending, 0, false)
  {
    forall i | 0 <= i < |triggers| ensures EnsureInvocations(invocations, triggers)[i].triggerName == triggers[i].name {
      assert triggers[i] in triggers;
    }
  }

  /** The name-to-index map the walk uses equals the list position after the carry-over. */
  lemma {:induction false} IndexAfterCarryOver(invocations: seq<TriggerInvocation>, triggers: seq<Trigger>)
    requires forall t :: t in triggers ==> t.name != ""
    requires forall n :: n in ByName(invocations) ==> ByName(invocations)[n].phase != Unset
    requires StrictlySorted(triggers)
    ensures forall i :: 0 <= i < |triggers| ==>
              var indexes := Indexes(EnsureInvocations(invocations, triggers));
              triggers[i].name in indexes && indexes[triggers[i].name] == i
  {
    CarryOverByName(invocations, triggers);
    SortedNamesDiffer(triggers);
    IndexIsPosition(EnsureInvocations(invocations, triggers));
    forall i | 0 <= i < |triggers|
      ensures triggers[i].name in Indexes(EnsureInvocations(invocations, triggers))
           && Indexes(EnsureInvocations(invocations, triggers))[triggers[i].name] == i
    {
      assert EnsureInvocations(invocations, triggers)[i].triggerName == triggers[i].name;
    }
  }

  // ---------------------------------------------------------------- summaries

  lemma {:induction false} CountsByPhase(invocations: seq<TriggerInvocation>)
    ensures CountPhase(invocations, Failed) > 0 <==> exists k :: 0 <= k < |invocations| && invocations[k].phase == Failed
    ensures CountPhase(invocations, Succeeded) == |invocations| <==> forall k :: 0 <= k < |invocations| ==> invocations[k].phase == Succeeded
    ensures CountPhase(invocations, Succeeded) + CountPhase(invocations, Failed) <= |invocations|
  {
    if invocations != [] {
      var n := |invocations| - 1;
      CountsByPhase(invocations[..n]);
      assert forall k :: 0 <= k < n ==> invocations[..n][k] == invocations[k];
    }
  }

  /** What the phase of a summarized event says about its invocations. */
  predicate Summarized(status: EventStatus) {
    var invocations := status.invocations;
    && (status.phase == PhaseFailed <==> exists k :: 0 <= k < |invocations| && invocations[k].phase == Failed)
    && (status.phase == PhaseProcessed <==> forall k :: 0 <= k < |invocations| ==> invocations[k].phase == Succeeded)
    && status.phase in {PhaseProcessed, PhaseProcessing, PhaseFailed}
  }

  lemma {:induction false} SummarizeSays(status: EventStatus)
    ensures Summarized(Summarize(status)) && Summarize(status).invocations == status.invocations
  {
    CountsByPhase(status.invocations);
  }

  lemma {:induction false} CarryOverLength(invocations: seq<TriggerInvocation>, triggers: seq<Trigger>)
    ensures |EnsureInvocations(invocations, triggers)| == |triggers|
  {
  }

  // ---------------------------------------------------------------- the retry bound

  /** Triggers of a namespace have names of their own. */
  predicate Named(input: EventInput) {
    input.listing.Some? ==> UniqueNames(input.listing.value) && forall t :: t in input.listing.value ==> t.name != ""
  }

  /** The trigger is matched in the pass. */
  predicate Matched(input: EventInput, name: string) {
    && IsFunctionEventType(input.eventType) && input.listing.Some? && UniqueNames(input.listing.value)
    && (forall t :: t in input.listing.value ==> t.name != "")
    && exists t :: t in Matching(input.listing.value, input.eventType) && t.name == name
  }

  /** The invariant of a run, for a trigger matched in every pass so far. */
  predicate Kept(name: string, invocations: seq<TriggerInvocation>, log: Log) {
    && (forall n :: n in ByName(invocations) ==> ByName(invocations)[n].phase != Unset)
    && if name in ByName(invocations) then Truthful(CallsFor(log, name), ByName(invocations)[name])
       else CallsFor(log, name) == []
  }

  lemma {:induction false} VisitSetsPhase(round: Round, index: nat, trigger: Trigger, invocation: TriggerInvocation, log: Log)
    requires invocation.phase != Unset
    ensures VisitTrigger(round, index, trigger, invocation, log).invocation.phase != Unset
  {
  }

  lemma {:induction false} WalkSetsPhases(round: Round, triggers: seq<Trigger>, i: nat, invocations: seq<TriggerInvocation>, log: Log, requeue: bool)
    requires |invocations| == |triggers| && forall k :: 0 <= k < |invocations| ==> invocations[k].phase != Unset
    ensures var walk := WalkTriggers(round, triggers, i, invocations, log, requeue);
            |walk.invocations| == |triggers| && forall k :: 0 <= k < |triggers| ==> walk.invocations[k].phase != Unset
    decreases |triggers| - i
  {
    hide VisitTrigger;
    if i < |triggers| {
      VisitSetsPhase(round, i, triggers[i], invocations[i], log);
      var visit := VisitTrigger(round, i, triggers[i], invocations[i], log);
      if visit.end == Completed {
        WalkSetsPhases(round, triggers, i + 1, invocations[i := visit.invocation], visit.log, requeue || visit.requeue);
      }
    }
  }

  /** The invariant, read at the position of the trigger. */
  lemma {:induction false} KeptAtPosition(name: string, invocations: seq<TriggerInvocation>, triggers: seq<Trigger>, log: Log, k: nat)
    requires Positioned(invocations, triggers) && Distinct(triggers) && k < |triggers| && triggers[k].name == name
    requires forall i :: 0 <= i < |invocations| ==> invocations[i].phase != Unset
    ensures Kept(name, invocations, log) <==> Truthful(CallsFor(log, name), invocations[k])
  {
    ByNameAt(invocations, triggers);
    forall n | n in ByName(invocations) ensures ByName(invocations)[n].phase != Unset {
      var i :| 0 <= i < |triggers| && triggers[i].name == n;
    }
  }

  lemma {:induction false} BeginKeeps(name: string, invocations: seq<TriggerInvocation>, triggers: seq<Trigger>, log: Log, k: nat)
    requires Kept(name, invocations, log) && Distinct(triggers) && k < |triggers| && triggers[k].name == name
    requires forall t :: t in triggers ==> t.name != ""
    ensures var next := EnsureInvocations(invocations, triggers);
            && Positioned(next, triggers)
            && (forall i :: 0 <= i < |next| ==> next[i].phase != Unset)
            && Truthful(CallsFor(log, name), next[k])
  {
    CarryOverByName(invocations, triggers);
  }

  lemma {:induction false} InvokeMatchedKeeps(round: Round, triggers: seq<Trigger>, begun: EventStatus, stored: EventStatus, log: Log, k: nat)
    requires Positioned(begun.invocations, triggers) && Distinct(triggers) && k < |triggers|
    requires forall i :: 0 <= i < |begun.invocations| ==> begun.invocations[i].phase != Unset
    requires Truthful(CallsFor(log, triggers[k].name), begun.invocations[k])
    ensures var pass := InvokeMatched(round, triggers, begun, stored, log);
            pass.outcome != Error ==> Kept(triggers[k].name, pass.status.invocations, pass.log)
  {
    hide WalkTriggers, CountPhase, Truthful, CallsFor, Kept;
    var walk := WalkTriggers(round, triggers, 0, begun.invocations, log, false);
    WalkTruthful(round, triggers, 0, begun.invocations, log, false, k);
    WalkSetsPhases(round, triggers, 0, begun.invocations, log, false);
    KeptAtPosition(triggers[k].name, walk.invocations, triggers, walk.log, k);
  }

  lemma {:induction false} PositionOf(input: EventInput, name: string) returns (k: nat)
    requires Matched(input, name)
    ensures var triggers := Matching(input.listing.value, input.eventType);
            && Distinct(triggers) && k < |triggers| && triggers[k].name == name
            && forall t :: t in triggers ==> t.name != ""
  {
    MatchingIsExact(input.listing.value, input.eventType);
    var triggers := Matching(input.listing.value, input.eventType);
    SortedNamesDiffer(triggers);
    var t :| t in triggers && t.name == name;
    k :| 0 <= k < |triggers| && triggers[k] == t;
  }

  lemma {:induction false} PassKeeps(input: EventInput, name: string, status: EventStatus, log: Log)
    requires Matched(input, name) && input.invoker.Some? && Kept(name, status.invocations, log)
    ensures var pass := ReconcileEvent(input, status, log);
            pass.outcome != Error ==> Kept(name, pass.status.invocations, pass.log)
  {
    hide InvokeMatched, Matching, EnsureInvocations, IsFunctionEventType, Kept, Truthful, CallsFor, ByName, CountPhase;
    var k := PositionOf(input, name);
    var triggers := Matching(input.listing.value, input.eventType);
    BeginKeeps(name, status.invocations, triggers, log, k);
    var begun := Begin(input, status, triggers);
    if input.body.Some? {
      InvokeMatchedKeeps(Round(input.invoker.value, input.body.value, input.lookups), triggers, begun, status, log, k);
    } else {
      KeptAtPosition(name, begun.invocations, triggers, log, k);
    }
  }

  /** Every pass of the run wrote its status. */
  predicate Persisted(inputs: seq<EventInput>, world: World) {
    inputs == [] ||
      var pass := ReconcileEvent(inputs[0], world.status, world.log);
      pass.outcome != Error && Persisted(inputs[1..], World(pass.status, pass.log))
  }

  lemma {:induction false} RunKeeps(inputs: seq<EventInput>, name: string, world: World)
    requires forall k :: 0 <= k < |inputs| ==> Matched(inputs[k], name) && inputs[k].invoker.Some?
    requires Persisted(inputs, world) && Kept(name, world.status.invocations, world.log)
    ensures var end := RunEvent(inputs, world); Kept(name, end.status.invocations, end.log)
  {
    hide ReconcileEvent, Kept, Matched;
    if inputs != [] {
      PassKeeps(inputs[0], name, world.status, world.log);
      var pass := ReconcileEvent(inputs[0], world.status, world.log);
      RunKeeps(inputs[1..], name, World(pass.status, pass.log));
    }
  }

  /** The retry bound.  Over every run of persisted passes with an invoker, a trigger matched
      in every pass gets at most 3 counted invocations and at most one success, no invocation
      follows its success, and its entry counts its invocations exactly. */
  lemma {:induction false} RetryBound(inputs: seq<EventInput>, name: string)
    requires forall k :: 0 <= k < |inputs| ==> Matched(inputs[k], name) && inputs[k].invoker.Some?
    requires Persisted(inputs, World(FRESH_EVENT, []))
    ensures var end := RunEvent(inputs, World(FRESH_EVENT, []));
            var calls := CallsFor(end.log, name);
            && Counted(calls) <= 3
            && Successes(calls) <= 1
            && NothingAfterSuccess(calls)
            && (calls != [] ==> name in ByName(end.status.invocations))
            && (name in ByName(end.status.invocations) ==>
                  && ByName(end.status.invocations)[name].attempts == Counted(calls)
                  && (ByName(end.status.invocations)[name].phase == Succeeded <==> Successes(calls) == 1)
                  && (ByName(end.status.invocations)[name].phase == Failed <==> Successes(calls) == 0 && Counted(calls) == 3))
  {
    hide ReconcileEvent, Matched, Persisted;
    RunKeeps(inputs, name, World(FRESH_EVENT, []));
    AtMostOneSuccess(CallsFor(RunEvent(inputs, World(FRESH_EVENT, [])).log, name));
  }

  lemma {:induction false} CarryOverKeepsPositions(invocations: seq<TriggerInvocation>, triggers: seq<Trigger>)
    requires Positioned(invocations, triggers) && Distinct(triggers)
    requires forall i :: 0 <= i < |invocations| ==> invocations[i].phase != Unset
    requires forall t :: t in triggers ==> t.name != ""
    ensures var next := EnsureInvocations(invocations, triggers);
            && Positioned(next, triggers)
            && forall i :: 0 <= i < |triggers| ==> next[i] == invocations[i].(functionName := triggers[i].functionName)
  {
    ByNameAt(invocations, triggers);
    forall n | n in ByName(invocations) ensures ByName(invocations)[n].phase != Unset {
      var i :| 0 <= i < |triggers| && triggers[i].name == n;
    }
    CarryOverByName(invocations, triggers);
  }

  // ---------------------------------------------------------------- three passes close the event

  /** After so many passes, whoever is still pending has been tried that often. */
  predicate TriedAtLeast(invocations: seq<TriggerInvocation>, passes: nat) {
    forall k :: 0 <= k < |invocations| ==>
      Exhausted(invocations[k]) || (invocations[k].phase == Pending && passes <= invocations[k].attempts < RETRY_LIMIT)
  }

  ghost predicate AllReady(round: Round) {
    Implemented(round.invoke) && forall name :: ReadyForInvocation(round.lookups(name))
  }

  lemma {:induction false} WalkTriesAll(round: Round, triggers: seq<Trigger>, i: nat, invocations: seq<TriggerInvocation>, log: Log, requeue: bool, passes: nat)
    requires Positioned(invocations, triggers) && AllReady(round)
    requires TriedAtLeast(invocations, passes)
    requires forall k :: 0 <= k < i && k < |invocations| ==> Exhausted(invocations[k]) || invocations[k].attempts >= passes + 1
    ensures var walk := WalkTriggers(round, triggers, i, invocations, log, requeue);
            && Positioned(walk.invocations, triggers)
            && walk.end == Completed && TriedAtLeast(walk.invocations, passes + 1)
    decreases |triggers| - i
  {
    if i < |triggers| {
      var visit := VisitTrigger(round, i, triggers[i], invocations[i], log);
      assert ReadyForInvocation(round.lookups(triggers[i].name));
      WalkTriesAll(round, triggers, i + 1, invocations[i := visit.invocation], visit.log, requeue || visit.requeue, passes);
    }
  }

  /** The pass matches exactly these triggers, all their Functions are ready and the invoker
      is implemented. */
  ghost predicate Drives(input: EventInput, generation: int, triggers: seq<Trigger>) {
    && input.generation == generation && IsFunctionEventType(input.eventType)
    && input.listing.Some? && Matching(input.listing.value, input.eventType) == triggers
    && input.invoker.Some? && input.body.Some? && AllReady(Round(input.invoker.value, input.body.value, input.lookups))
  }

  /** Where a run is after some passes: closed for this generation, or every pending trigger
      has been tried in every pass. */
  predicate Progressed(generation: int, triggers: seq<Trigger>, status: EventStatus, passes: nat) {
    || (IsTerminal(status) && status.observedGeneration == generation)
    || (!IsTerminal(status) && TriedAtLeast(status.invocations, passes)
        && if passes == 0 then status.invocations == [] else Positioned(status.invocations, triggers))
  }

  lemma {:induction false} DrivenPass(input: EventInput, generation: int, triggers: seq<Trigger>, status: EventStatus, log: Log, passes: nat)
    requires Drives(input, generation, triggers) && triggers != [] && Distinct(triggers)
    requires forall t :: t in triggers ==> t.name != ""
    requires Progressed(generation, triggers, status, passes)
    ensures var pass := ReconcileEvent(input, status, log);
            && pass.outcome != Error && Progressed(generation, triggers, pass.status, passes + 1)
            && (passes + 1 >= RETRY_LIMIT ==> IsTerminal(pass.status))
  {
    hide InvokeMatched, Matching, EnsureInvocations, IsFunctionEventType, ByName, CountPhase, AllReady;
    if !IsTerminal(status) {
      var begun := Begin(input, status, triggers);
      if passes == 0 {
        assert ByName(status.invocations) == map[] by { NothingByName(); }
        CarryOverByName(status.invocations, triggers);
      } else {
        CarryOverKeepsPositions(status.invocations, triggers);
      }
      DrivenInvocations(Round(input.invoker.value, input.body.value, input.lookups), triggers, begun, status, log, passes);
    }
  }

  lemma {:induction false} NothingByName()
    ensures ByName([]) == map[]
  {
  }

  lemma {:induction false} DrivenInvocations(round: Round, triggers: seq<Trigger>, begun: EventStatus, stored: EventStatus, log: Log, passes: nat)
    requires AllReady(round) && Positioned(begun.invocations, triggers) && triggers != []
    requires TriedAtLeast(begun.invocations, passes) && begun.phase in {NoPhase, PhasePending, PhaseProcessing}
    ensures var pass := InvokeMatched(round, triggers, begun, stored, log);
            && pass.outcome != Error && pass.status.observedGeneration == begun.observedGeneration
            && Positioned(pass.status.invocations, triggers) && TriedAtLeast(pass.status.invocations, passes + 1)
            && (passes + 1 >= RETRY_LIMIT ==> IsTerminal(pass.status))
  {
    hide WalkTriggers, CountPhase, AllReady;
    var walk := WalkTriggers(round, triggers, 0, begun.invocations, log, false);
    WalkTriesAll(round, triggers, 0, begun.invocations, log, false, passes);
    SummarizeSays(begun.(invocations := walk.invocations));
  }

  lemma {:induction false} DrivenRun(inputs: seq<EventInput>, generation: int, triggers: seq<Trigger>, world: World, passes: nat)
    requires forall k :: 0 <= k < |inputs| ==> Drives(inputs[k], generation, triggers)
    requires triggers != [] && Distinct(triggers) && forall t :: t in triggers ==> t.name != ""
    requires Progressed(generation, triggers, world.status, passes)
    requires passes >= RETRY_LIMIT ==> IsTerminal(world.status)
    ensures passes + |inputs| >= RETRY_LIMIT ==> IsTerminal(RunEvent(inputs, world).status)
  {
    hide ReconcileEvent, Progressed, Drives;
    if inputs != [] {
      var pass := ReconcileEvent(inputs[0], world.status, world.log);
      DrivenPass(inputs[0], generation, triggers, world.status, world.log, passes);
      DrivenRun(inputs[1..], generation, triggers, World(pass.status, pass.log), passes + 1);
    }
  }

  /** With a fixed set of matching triggers, all Functions ready and the invoker implemented,
      the event is closed after at most three passes, and stays closed. */
  lemma {:induction false} ThreePassesClose(inputs: seq<EventInput>, generation: int, triggers: seq<Trigger>)
    requires forall k :: 0 <= k < |inputs| ==> Drives(inputs[k], generation, triggers)
    requires triggers != [] && Distinct(triggers) && forall t :: t in triggers ==> t.name != ""
    requires |inputs| >= 3
    ensures IsTerminal(RunEvent(inputs, World(FRESH_EVENT, [])).status)
  {
    DrivenRun(inputs, generation, triggers, World(FRESH_EVENT, []), 0);
  }
}
