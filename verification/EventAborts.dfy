/** FunctionEvent passes that break the ledgers: those that cannot read a Function drop the
    status they have built but not the calls they have made, and those without an invoker
    overwrite every phase.  For each, the condition under which a ledger survives. */
module EventAborts {
  import opened Invocations
  import opened Strings
  import opened TriggerRouting
  import opened FunctionEvents
  import opened EventReconciler
  import opened EventRuns
  import opened EventWakeups

  /** The walk cannot pass position j: the invocation is due and its Function unreadable. */
  predicate Blocks(round: Round, triggers: seq<Trigger>, invocations: seq<TriggerInvocation>, j: int) {
    0 <= j < |triggers| && j < |invocations| && !Exhausted(invocations[j]) && round.lookups(triggers[j].name).LookupFailed?
  }

  /** Some position from i on blocks. */
  predicate BlockedFrom(round: Round, triggers: seq<Trigger>, invocations: seq<TriggerInvocation>, i: nat) {
    exists j :: i <= j < |triggers| && Blocks(round, triggers, invocations, j)
  }

  /** Trigger k is reached and called: it is due, its Function is ready, and nobody from i up
      to it blocks. */
  predicate CalledFrom(round: Round, triggers: seq<Trigger>, invocations: seq<TriggerInvocation>, i: nat, k: nat) {
    && i <= k < |triggers| && k < |invocations| && !Exhausted(invocations[k])
    && ReadyForInvocation(round.lookups(triggers[k].name))
    && forall j :: i <= j < k ==> !Blocks(round, triggers, invocations, j)
  }

  /** Whether a walk is aborted can be read off its inputs. */
  lemma {:induction false} WalkAbortsExactly(round: Round, triggers: seq<Trigger>, i: nat, invocations: seq<TriggerInvocation>, log: Log, requeue: bool)
    requires |invocations| == |triggers| && Implemented(round.invoke)
    ensures WalkTriggers(round, triggers, i, invocations, log, requeue).end ==
              if BlockedFrom(round, triggers, invocations, i) then LookupError else Completed
    decreases |triggers| - i
  {
    hide Exhausted, ReadyForInvocation;
    if i < |triggers| {
      var visit := VisitTrigger(round, i, triggers[i], invocations[i], log);
      var updated := invocations[i := visit.invocation];
      assert forall j :: i < j ==> (Blocks(round, triggers, updated, j) <==> Blocks(round, triggers, invocations, j));
      assert visit.end == LookupError <==> Blocks(round, triggers, invocations, i);
      if visit.end == Completed {
        WalkAbortsExactly(round, triggers, i + 1, updated, visit.log, requeue || visit.requeue);
      }
    }
  }

  /** So can whether it calls a trigger: then once, counted, and otherwise not at all. */
  lemma {:induction false} WalkCallsExactly(
      round: Round, triggers: seq<Trigger>, i: nat, invocations: seq<TriggerInvocation>, log: Log, requeue: bool, k: nat)
    requires |invocations| == |triggers| && Distinct(triggers) && Implemented(round.invoke) && k < |triggers|
    ensures var name := triggers[k].name;
            var after := CallsFor(WalkTriggers(round, triggers, i, invocations, log, requeue).log, name);
            if CalledFrom(round, triggers, invocations, i, k)
            then |after| == |CallsFor(log, name)| + 1 && after[..|after| - 1] == CallsFor(log, name) && !after[|after| - 1].answer.AnswerNotImplemented?
            else after == CallsFor(log, name)
    decreases |triggers| - i
  {
    hide CallsFor, Exhausted;
    if i < |triggers| {
      var visit := VisitTrigger(round, i, triggers[i], invocations[i], log);
      var updated := invocations[i := visit.invocation];
      assert forall j :: i < j ==> (Blocks(round, triggers, updated, j) <==> Blocks(round, triggers, invocations, j));
      assert visit.end == LookupError <==> Blocks(round, triggers, invocations, i);
      VisitCalls(round, i, triggers[i], invocations[i], log, triggers[k].name);
      assert triggers[i].name == triggers[k].name <==> i == k;
      assert i < k ==> (CalledFrom(round, triggers, invocations, i, k) <==>
                          !Blocks(round, triggers, invocations, i) && CalledFrom(round, triggers, updated, i + 1, k));
      if visit.end == Completed {
        hide VisitTrigger, ReadyForInvocation;
        WalkCallsExactly(round, triggers, i + 1, updated, visit.log, requeue || visit.requeue, k);
      }
    }
  }

  lemma {:induction false} VisitCalls(round: Round, index: nat, trigger: Trigger, invocation: TriggerInvocation, log: Log, name: string)
    requires Implemented(round.invoke)
    ensures var before, after := CallsFor(log, name), CallsFor(VisitTrigger(round, index, trigger, invocation, log).log, name);
            if trigger.name == name && !Exhausted(invocation) && ReadyForInvocation(round.lookups(trigger.name))
            then |after| == |before| + 1 && after[..|after| - 1] == before && !after[|after| - 1].answer.AnswerNotImplemented?
            else after == before
    ensures VisitTrigger(round, index, trigger, invocation, log).end != InvokerNotImplemented
  {
    hide CallsFor;
    var lookup := round.lookups(trigger.name);
    if !Exhausted(invocation) && ReadyForInvocation(lookup) {
      var request := Request(lookup.target, index, round.body, trigger.name);
      CallsForAppend(log, Call(request, round.invoke(log, request)), name);
    }
  }

  /** Exactly when a pass keeps a ledger true, in terms of what it starts from.  The ledger of
      trigger k is lost if and only if somebody blocks the walk and trigger k is called before:
      it is due, its Function is ready, and nobody at an earlier position blocks. */
  lemma {:induction false} AbortedPassLedger(input: EventInput, status: EventStatus, log: Log, k: nat)
    requires Walks(input, status) && Named(input) && k < |Matching(input.listing.value, input.eventType)|
    requires Kept(Matching(input.listing.value, input.eventType)[k].name, status.invocations, log)
    ensures var triggers := Matching(input.listing.value, input.eventType);
            var before := EnsureInvocations(status.invocations, triggers);
            var round := Round(input.invoker.value, input.body.value, input.lookups);
            var pass := ReconcileEvent(input, status, log);
            && (pass.outcome == Error <==> BlockedFrom(round, triggers, before, 0))
            && (Kept(triggers[k].name, pass.status.invocations, pass.log) <==>
                  !(BlockedFrom(round, triggers, before, 0) && CalledFrom(round, triggers, before, 0, k)))
  {
    var triggers := Matching(input.listing.value, input.eventType);
    var before := EnsureInvocations(status.invocations, triggers);
    var round := Round(input.invoker.value, input.body.value, input.lookups);
    var pass := ReconcileEvent(input, status, log);
    var name := triggers[k].name;
    MatchingIsExact(input.listing.value, input.eventType);
    SortedNamesDiffer(triggers);
    assert Matched(input, name) by {
      assert triggers[k] in triggers;
    }
    hide Matching, EnsureInvocations, IsFunctionEventType, Kept, CallsFor, ByName, CountPhase, WalkTriggers, Conclude, ReconcileEvent,
         BlockedFrom, CalledFrom, Matched;
    PassKeeps(input, name, status, log);
    WalkingPass(input, status, log);
    WalkAbortsExactly(round, triggers, 0, before, log, false);
    WalkCallsExactly(round, triggers, 0, before, log, false, k);
    ConcludeNeverFails(Begin(input, status, triggers).(invocations := WalkTriggers(round, triggers, 0, before, log, false).invocations),
                       pass.log, WalkTriggers(round, triggers, 0, before, log, false).requeue);
    if pass.outcome == Error {
      LedgerAfterCall(name, status.invocations, log, pass.log);
    }
  }

  lemma {:induction false} ConcludeNeverFails(status: EventStatus, log: Log, requeue: bool)
    ensures Conclude(status, log, requeue).outcome != Error
  {
  }

  /** A ledger that was true is true of a later log exactly if there are no further calls. */
  lemma {:induction false} LedgerAfterCall(name: string, invocations: seq<TriggerInvocation>, log: Log, later: Log)
    requires Kept(name, invocations, log)
    requires var before, after := CallsFor(log, name), CallsFor(later, name);
             || after == before
             || (|after| == |before| + 1 && after[..|after| - 1] == before && !after[|after| - 1].answer.AnswerNotImplemented?)
    ensures Kept(name, invocations, later) <==> CallsFor(later, name) == CallsFor(log, name)
  {
    hide CallsFor;
  }

  // ---------------------------------------------------------------- a success repeated

  lemma {:induction false} MatchingTwo(first: Trigger, second: Trigger, eventType: string)
    requires Selected(first, eventType) && Selected(second, eventType) && Less(first.name, second.name)
    ensures Matching([first, second], eventType) == [first, second]
  {
    hide Selected, Less;
    var both := [first, second];
    assert both[..1] == [first] && [first][..0] == [] && both[1..] == [second] && [second][1..] == [];
    assert Select(both, eventType) == Select(both[..1], eventType) + [second];
    assert Select([first], eventType) == Select([first][..0], eventType) + [first] == [first];
    assert SortByName([second]) == Insert(second, SortByName([second][1..])) == [second];
    assert SortByName(both) == Insert(first, SortByName(both[1..])) == both;
  }

  /** Two triggers of one event; the Function of the second cannot be read. */
  function BlockedInput(first: string, second: string, eventType: string, body: Bytes, target: Target, invoke: Invoker): EventInput {
    EventInput(1, eventType, Some(body), Some([PlainTrigger(first, "f", eventType), PlainTrigger(second, "g", eventType)]),
               name => if name == first then Found(true, target, "") else LookupFailed, Some(invoke))
  }

  /** A success is repeated, as a run.  With an invoker that always succeeds, a fresh event whose
      second trigger's Function cannot be read invokes the first trigger in every pass. */
  lemma {:induction false} AbortedRunRepeatsSuccess(first: string, second: string, eventType: string, body: Bytes, target: Target, invoke: Invoker)
    requires first != "" && Less(first, second) && IsFunctionEventType(eventType)
    requires target.functionOCID != "" && target.invokeEndpoint != ""
    requires forall log, request :: invoke(log, request).AnswerOk?
    ensures var input := BlockedInput(first, second, eventType, body, target, invoke);
            var end := RunEvent([input, input], World(FRESH_EVENT, []));
            end.status == FRESH_EVENT && Successes(CallsFor(end.log, first)) == 2
  {
    hide IsFunctionEventType;
    LessIrreflexive(first);
    assert second != "";
    hide Less;
    var input := BlockedInput(first, second, eventType, body, target, invoke);
    PlainIsSelected(first, "f", eventType);
    PlainIsSelected(second, "g", eventType);
    MatchingTwo(PlainTrigger(first, "f", eventType), PlainTrigger(second, "g", eventType), eventType);
    hide Matching, Selected, ReconcileEvent;
    var one := BlockedPass(first, second, eventType, body, target, invoke, []);
    var two := BlockedPass(first, second, eventType, body, target, invoke, one);
    TwoPasses(input, one, two);
    TwoSuccesses(one, two, first);
  }

  lemma {:induction false} TwoPasses(input: EventInput, one: Log, two: Log)
    requires ReconcileEvent(input, FRESH_EVENT, []) == EventPass(FRESH_EVENT, one, Error)
    requires ReconcileEvent(input, FRESH_EVENT, one) == EventPass(FRESH_EVENT, two, Error)
    ensures RunEvent([input, input], World(FRESH_EVENT, [])) == World(FRESH_EVENT, two)
  {
    hide ReconcileEvent;
    assert [input, input][1..] == [input] && [input][1..] == [];
    assert RunEvent([input], World(FRESH_EVENT, one)) == World(FRESH_EVENT, two);
  }

  lemma {:induction false} TwoSuccesses(one: Log, two: Log, name: string)
    requires |one| == 1 && |two| == 2 && two == one + [two[1]]
    requires one[0].request.origin == name && one[0].answer.AnswerOk? && two[1].request.origin == name && two[1].answer.AnswerOk?
    ensures Successes(CallsFor(two, name)) == 2
  {
    assert one == [] + [one[0]] && CallsFor([], name) == [] && Successes([]) == 0;
    hide CallsFor, Successes;
    CallsForAppend([], one[0], name);
    CallsForAppend(one, two[1], name);
    SuccessesAppend([], one[0]);
    SuccessesAppend(CallsFor(one, name), two[1]);
  }

  lemma {:induction false} BlockedPass(first: string, second: string, eventType: string, body: Bytes, target: Target, invoke: Invoker, log: Log)
    returns (after: Log)
    requires first != second && first != "" && second != "" && IsFunctionEventType(eventType)
    requires target.functionOCID != "" && target.invokeEndpoint != ""
    requires forall log, request :: invoke(log, request).AnswerOk?
    requires var triggers := [PlainTrigger(first, "f", eventType), PlainTrigger(second, "g", eventType)];
             Matching(triggers, eventType) == triggers
    ensures ReconcileEvent(BlockedInput(first, second, eventType, body, target, invoke), FRESH_EVENT, log) == EventPass(FRESH_EVENT, after, Error)
    ensures |after| == |log| + 1 && after == log + [after[|log|]]
    ensures after[|log|].request.origin == first && after[|log|].answer.AnswerOk?
  {
    hide IsFunctionEventType, Matching;
    var input := BlockedInput(first, second, eventType, body, target, invoke);
    var triggers := input.listing.value;
    var round := Round(invoke, body, input.lookups);
    var before := EnsureInvocations([], triggers);
    assert |before| == 2 && before[0].phase == Pending && before[1].phase == Pending by { NothingByName(); }
    var request := Request(target, 0, body, first);
    after := log + [Call(request, invoke(log, request))];
    var visit := VisitTrigger(round, 0, triggers[0], before[0], log);
    assert visit.end == Completed && visit.log == after;
    var updated := before[0 := visit.invocation];
    assert VisitTrigger(round, 1, triggers[1], updated[1], after) == Visit(updated[1], after, false, LookupError);
    WalkTwo(round, triggers, before, log);
    WalkingPass(input, FRESH_EVENT, log);
  }

  lemma {:induction false} WalkTwo(round: Round, triggers: seq<Trigger>, before: seq<TriggerInvocation>, log: Log)
    requires |triggers| == |before| == 2
    requires VisitTrigger(round, 0, triggers[0], before[0], log).end == Completed
    requires var visit := VisitTrigger(round, 0, triggers[0], before[0], log);
             VisitTrigger(round, 1, triggers[1], before[1], visit.log).end == LookupError
    ensures var visit := VisitTrigger(round, 0, triggers[0], before[0], log);
            var walk := WalkTriggers(round, triggers, 0, before, log, false);
            walk.end == LookupError && walk.log == VisitTrigger(round, 1, triggers[1], before[1], visit.log).log
  {
    hide VisitTrigger;
    var visit := VisitTrigger(round, 0, triggers[0], before[0], log);
    var updated := before[0 := visit.invocation];
    assert updated[1] == before[1];
    assert WalkTriggers(round, triggers, 1, updated, visit.log, false || visit.requeue).end == LookupError;
  }

  // ---------------------------------------------------------------- no invoker

  /** Without an invoker a pass overwrites every phase: a ledger survives exactly if the
      invocation was still pending. */
  lemma {:induction false} NilInvokerLedger(input: EventInput, name: string, status: EventStatus, log: Log, k: nat)
    requires Matched(input, name) && input.invoker.None? && !IsTerminal(status) && Kept(name, status.invocations, log)
    requires var triggers := Matching(input.listing.value, input.eventType);
             Positioned(status.invocations, triggers) && Distinct(triggers) && k < |triggers| && triggers[k].name == name
    requires forall i :: 0 <= i < |status.invocations| ==> status.invocations[i].phase != Unset
    ensures Kept(name, ReconcileEvent(input, status, log).status.invocations, log) <==> status.invocations[k].phase == Pending
  {
    hide Matching, EnsureInvocations, IsFunctionEventType, Kept, CallsFor, ByName, CountPhase;
    var triggers := Matching(input.listing.value, input.eventType);
    var k' := PositionOf(input, name);
    CarryOverKeepsPositions(status.invocations, triggers);
    var after := ReconcileEvent(input, status, log).status.invocations;
    assert after == AllPending(EnsureInvocations(status.invocations, triggers)) by {
      assert |EnsureInvocations(status.invocations, triggers)| == |triggers| > 0;
    }
    KeptAtPosition(name, status.invocations, triggers, log, k);
    KeptAtPosition(name, after, triggers, log, k);
  }
}
