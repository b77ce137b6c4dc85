/** What a pass over a FunctionEventTrigger achieves: that the trigger gets its rule, in the
    trigger's own fields, and when a deletion lets the object go. */
module TriggerRules {
  import opened Invocations
  import opened Strings
  import opened CloudAnswers
  import opened TriggerRouting
  import opened EventRules
  import opened TriggerReconciler
  import opened RuleRuns

  // ---------------------------------------------------------------- one call

  /** When a call succeeds: exactly if it is asked for something, can search, and its write, if
      it makes one, is answered. */
  lemma {:induction false} EnsureSucceeds(rules: Rules, desired: DesiredRule, weather: Weather, normalize: Normalizer)
    ensures var effect := Ensure(rules, desired, weather, normalize);
            !effect.state.failed <==>
              && TrimSpace(desired.compartmentId) != "" && TrimSpace(desired.displayName) != "" && TrimSpace(desired.conditionJSON) != ""
              && TrimSpace(desired.functionId) != "" && TrimSpace(desired.triggerName) != "" && TrimSpace(desired.namespace) != ""
              && TrimSpace(desired.uid) != ""
              && !Find(rules, desired, weather).FindFailed?
              && (effect.writes == [WriteCreate] ==> weather.create.CreateAnswered?)
              && (effect.writes != [] && effect.writes != [WriteCreate] ==> weather.update.WriteAnswered?)
  {
    hide Find, TrimSpace, RuleNeedsUpdate, NewRule;
  }

  /** A rule is reported ready exactly if the call has succeeded and the rule is active or
      inactive. */
  lemma {:induction false} ReadyMeansSettled(rules: Rules, desired: DesiredRule, weather: Weather, normalize: Normalizer)
    requires CleanIds(rules) && Honest(rules, desired, weather)
    ensures var effect := Ensure(rules, desired, weather, normalize);
            && (effect.state.ready ==> !effect.state.failed)
            && (!effect.state.failed ==>
                  && effect.state.ruleId in effect.rules
                  && (effect.state.ready <==> effect.rules[effect.state.ruleId].lifecycle in {Active, Inactive}))
  {
    hide Find, TrimSpace, RuleNeedsUpdate, ValidDesired, CompleteListing;
    FoundIsStored(rules, desired, weather);
  }

  // ---------------------------------------------------------------- one pass

  /** A trigger whose rule is managed: no event types of this operator, a compartment, a name,
      and the finalizer. */
  ghost predicate Managed(trigger: Trigger) {
    && (forall t :: t in trigger.eventTypes ==> !IsFunctionEventType(t))
    && TrimSpace(trigger.compartmentId) != "" && TrimSpace(trigger.displayName) != "" && trigger.finalizer
  }

  lemma {:induction false} ManagedIsRouted(trigger: Trigger)
    ensures RouteTrigger(trigger) == ManageRule <==> Managed(trigger)
  {
    ClassifyIsMode(trigger);
  }

  /** The identity of a trigger is never blank. */
  predicate Identified(resource: TriggerResource) {
    TrimSpace(resource.trigger.name) != "" && TrimSpace(resource.namespace) != "" && TrimSpace(resource.uid) != ""
  }

  predicate NotDisabled(trigger: Trigger) { trigger.isEnabled != Some(false) }

  /** The rule says what the trigger asks for, in the trigger's own fields. */
  ghost predicate RuleOf(rule: Rule, resource: TriggerResource, functionId: string, conditionJSON: string, normalize: Normalizer) {
    && TrimSpace(rule.displayName) == TrimSpace(resource.trigger.displayName)
    && TrimSpace(rule.description) == TrimSpace(resource.description)
    && rule.enabled == NotDisabled(resource.trigger)
    && SameConditionJSON(TrimSpace(rule.condition), conditionJSON, normalize)
    && rule.tags == map[NAME_TAG := resource.trigger.name, NAMESPACE_TAG := resource.namespace, UID_TAG := resource.uid]
    && exists i :: CallsFunction(rule.actions, i, TrimSpace(functionId), NotDisabled(resource.trigger))
  }

  /** The first FaaS action, at position i, calls the function. */
  predicate CallsFunction(actions: seq<Action>, i: nat, functionId: string, enabled: bool) {
    && i < |actions| && actions[i].FaaSAction? && TrimSpace(actions[i].functionId) == functionId && actions[i].enabled == enabled
    && forall k :: 0 <= k < i ==> !actions[k].FaaSAction?
  }

  lemma {:induction false} FirstFaaSIsFirst(actions: seq<Action>) returns (i: nat)
    requires FirstFaaS(actions).Some?
    ensures i < |actions| && actions[i] == FirstFaaS(actions).value && actions[i].FaaSAction?
    ensures forall k :: 0 <= k < i ==> !actions[k].FaaSAction?
  {
    if actions[0].FaaSAction? {
      i := 0;
    } else {
      var j := FirstFaaSIsFirst(actions[1..]);
      i := j + 1;
      assert forall k :: 0 < k < i ==> actions[k] == actions[1..][k - 1];
    }
  }

  /** What the manager is asked for is what the trigger says. */
  lemma {:induction false} AsDesiredIsRuleOf(rule: Rule, resource: TriggerResource, functionId: string, conditionJSON: string, normalize: Normalizer)
    requires TrimSpace(functionId) != ""
    requires AsDesired(rule, DesiredRuleFromTrigger(resource, functionId, conditionJSON), normalize)
    ensures RuleOf(rule, resource, functionId, conditionJSON, normalize)
  {
    hide TrimSpace;
    var enabled := NotDisabled(resource.trigger);
    assert resource.trigger.RuleEnabled() <==> enabled;
    assert FirstFaaS(rule.actions).Some?;
    var i := FirstFaaSIsFirst(rule.actions);
    assert CallsFunction(rule.actions, i, TrimSpace(functionId), enabled);
  }

  /** Every write that a call may need is answered, and what is created is live. */
  predicate Answers(weather: Weather) {
    Fair(weather) && weather.update.WriteAnswered? && weather.create.CreateAnswered? && Live(weather.create.lifecycle)
  }

  lemma {:induction false} FairFinds(rules: Rules, desired: DesiredRule, weather: Weather)
    requires CleanIds(rules) && Honest(rules, desired, weather) && Fair(weather)
    ensures !Find(rules, desired, weather).FindFailed?
  {
    hide FirstWanted, Flatten, Tagged, CompleteListing, MatchesTrigger;
    WantedIsTagged(rules, desired, Flatten(weather.pages));
    TaggedIsThere(rules, desired);
  }

  lemma {:induction false} TaggedIsThere(rules: Rules, who: DesiredRule)
    ensures forall id :: Tagged(rules, who, id) ==> id in rules
  {
  }

  /** The call that such a pass makes succeeds, with a live rule that is as asked for. */
  lemma {:induction false} CallGivesRule(rules: Rules, desired: DesiredRule, weather: Weather, normalize: Normalizer)
    requires ValidDesired(desired) && SurvivesTrimming(desired, normalize)
    requires CleanIds(rules) && Honest(rules, desired, weather) && Answers(weather)
    requires desired.ruleId in rules ==> Live(rules[desired.ruleId].lifecycle)
    ensures var effect := Ensure(rules, desired, weather, normalize);
            && effect.state.ruleId in effect.rules && Serves(effect.rules[effect.state.ruleId], desired, normalize)
            && (desired.ruleId in rules ==> effect.state.ruleId == desired.ruleId)
            && (desired.ruleId !in rules ==> effect.rules[effect.state.ruleId].compartment == desired.compartmentId)
  {
    assert "" !in rules;
    hide Ensure, Find, TrimSpace, AsDesired, SurvivesTrimming, CompleteListing, Flatten;
    FairFinds(rules, desired, weather);
    EnsureSucceeds(rules, desired, weather, normalize);
    EnsuredRuleServes(rules, desired, weather, normalize);
    WhereItStands(rules, desired, weather, normalize);
  }

  /** A trigger gets its rule.  A pass over a managed trigger whose Function and condition are
      there, with a service that answers, records a live rule that says what the trigger asks
      for, whatever rules there were, unless the recorded id leads to a dead one. */
  lemma {:induction false} PassGivesRule(world: World, functionId: string, conditionJSON: string, weather: Weather, normalize: Normalizer)
    requires Managed(world.resource.trigger) && Identified(world.resource)
    requires TrimSpace(functionId) != "" && TrimSpace(conditionJSON) == conditionJSON != ""
    requires CleanIds(world.rules) && Honest(world.rules, Who(world.resource), weather) && Answers(weather)
    requires TrimSpace(world.resource.ruleId) in world.rules ==> Live(world.rules[TrimSpace(world.resource.ruleId)].lifecycle)
    ensures var next := SyncPass(world, Resolved(functionId, conditionJSON), weather, normalize, true);
            && next.resource == world.resource.(ruleId := next.resource.ruleId)
            && next.resource.ruleId in next.rules && Live(next.rules[next.resource.ruleId].lifecycle)
            && RuleOf(next.rules[next.resource.ruleId], world.resource, functionId, conditionJSON, normalize)
            && (TrimSpace(world.resource.ruleId) in world.rules ==> next.resource.ruleId == TrimSpace(world.resource.ruleId))
            && (TrimSpace(world.resource.ruleId) !in world.rules ==>
                  next.rules[next.resource.ruleId].compartment == TrimSpace(world.resource.trigger.compartmentId))
  {
    var desired := DesiredRuleFromTrigger(world.resource, functionId, conditionJSON);
    assert desired.ruleId == TrimSpace(world.resource.ruleId) && desired.compartmentId == TrimSpace(world.resource.trigger.compartmentId);
    assert SameTrigger(Who(world.resource), desired);
    hide *;
    ManagedIsRouted(world.resource.trigger);
    TriggerRuleSurvives(world.resource, functionId, conditionJSON, normalize);
    DesiredIsValid(world.resource, functionId, conditionJSON);
    HonestSameTrigger(world.rules, Who(world.resource), desired, weather);
    CallGivesRule(world.rules, desired, weather, normalize);
    var effect := Ensure(world.rules, desired, weather, normalize);
    ServesIsBoth(effect.rules[effect.state.ruleId], desired, normalize);
    AsDesiredIsRuleOf(effect.rules[effect.state.ruleId], world.resource, functionId, conditionJSON, normalize);
    ManagedPass(world, functionId, conditionJSON, weather, normalize);
  }

  lemma {:induction false} ServesIsBoth(rule: Rule, desired: DesiredRule, normalize: Normalizer)
    ensures Serves(rule, desired, normalize) <==> Live(rule.lifecycle) && AsDesired(rule, desired, normalize)
  {
    hide AsDesired;
  }

  lemma {:induction false} ManagedPass(world: World, functionId: string, conditionJSON: string, weather: Weather, normalize: Normalizer)
    requires RouteTrigger(world.resource.trigger) == ManageRule
    ensures var effect := Ensure(world.rules, DesiredRuleFromTrigger(world.resource, functionId, conditionJSON), weather, normalize);
            SyncPass(world, Resolved(functionId, conditionJSON), weather, normalize, true)
            == World(effect.rules, world.resource.(ruleId := effect.state.ruleId))
  {
    hide Ensure, RouteTrigger, DesiredRuleFromTrigger;
  }

  lemma {:induction false} DesiredIsValid(resource: TriggerResource, functionId: string, conditionJSON: string)
    requires Managed(resource.trigger) && Identified(resource) && TrimSpace(functionId) != "" && TrimSpace(conditionJSON) != ""
    ensures ValidDesired(DesiredRuleFromTrigger(resource, functionId, conditionJSON))
  {
    TrimTwice(resource.trigger.compartmentId);
    TrimTwice(resource.trigger.displayName);
    TrimTwice(functionId);
    hide TrimSpace;
  }

  /** The recorded rule is kept; any other stands in the compartment asked for. */
  lemma {:induction false} WhereItStands(rules: Rules, desired: DesiredRule, weather: Weather, normalize: Normalizer)
    requires CleanIds(rules) && Honest(rules, desired, weather) && weather.byId == NoFault && "" !in rules
    requires !Ensure(rules, desired, weather, normalize).state.failed
    ensures var effect := Ensure(rules, desired, weather, normalize);
            && effect.state.ruleId in effect.rules
            && (desired.ruleId in rules ==> effect.state.ruleId == desired.ruleId)
            && (desired.ruleId !in rules ==> effect.rules[effect.state.ruleId].compartment == desired.compartmentId)
  {
    hide FirstWanted, Flatten, CompleteListing, MatchesTrigger, ValidDesired, RuleNeedsUpdate, TrimSpace;
    FoundIsStored(rules, desired, weather);
    WantedIsTagged(rules, desired, Flatten(weather.pages));
    if FirstWanted(Listed(weather), desired).Some? && weather.listFailsAt < |weather.pages| {
      EarlyPages(weather.pages, weather.listFailsAt, desired);
    }
  }

  /** A pass changes rules, or the recorded id, of managed triggers only; of the others it changes
      the finalizer, or clears the id of a functionevent route. */
  lemma {:induction false} OtherPassesLeaveRules(world: World, readiness: Readiness, weather: Weather, normalize: Normalizer, configured: bool)
    requires !Managed(world.resource.trigger) || readiness.NotReadyYet? || !configured
    ensures var next := SyncPass(world, readiness, weather, normalize, configured);
            && next.rules == world.rules
            && (next.resource.ruleId == world.resource.ruleId || (next.resource.ruleId == "" && ModeOf(world.resource.trigger.eventTypes) == FunctionEventOnly))
            && (next.resource.trigger.finalizer <==>
                  if ModeOf(world.resource.trigger.eventTypes) == FunctionEventOnly then false
                  else world.resource.trigger.finalizer
                       || (ModeOf(world.resource.trigger.eventTypes) == OCI
                           && TrimSpace(world.resource.trigger.compartmentId) != "" && TrimSpace(world.resource.trigger.displayName) != ""))
  {
    hide Ensure, TrimSpace, Scan, ModeOf;
    ManagedIsRouted(world.resource.trigger);
    ClassifyIsMode(world.resource.trigger);
  }

  /** When a deletion lets the object go: exactly if there is nothing to delete, or its rule was
      deleted or is gone already.  The rule it deletes is the recorded one. */
  lemma {:induction false} DeletionReleases(world: World, weather: Weather, configured: bool)
    requires world.resource.trigger.finalizer && TrimSpace(world.resource.ruleId) == world.resource.ruleId
    ensures var next := ReleasePass(world, weather, configured);
            var deletes := world.resource.deletesRule && world.resource.ruleId != "" && configured;
            && (!next.resource.trigger.finalizer <==>
                  || !world.resource.deletesRule || world.resource.ruleId == ""
                  || (configured && (weather.delete.DeleteAnswered? || weather.delete.Delete404?)))
            && next.rules.Keys == world.rules.Keys
            && (forall id :: id in world.rules ==>
                  next.rules[id] == if deletes && id == world.resource.ruleId && (weather.delete.DeleteAnswered? || weather.delete.DeleteLost?)
                                    then world.rules[id].(lifecycle := Deleting) else world.rules[id])
  {
    hide TrimSpace;
  }
}
