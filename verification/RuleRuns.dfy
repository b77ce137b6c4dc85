/** Runs of the trigger reconciler: at most one live rule per trigger, whatever the calls
    meet; a second call finds nothing to write; and what is left when the trigger goes. */
module RuleRuns {
  import opened Invocations
  import opened Strings
  import opened CloudAnswers
  import opened TriggerRouting
  import opened EventRules
  import opened TriggerReconciler

  /** OCIDs are never blank and carry no white space around them. */
  ghost predicate CleanIds(rules: Rules) { forall id :: id in rules ==> id != "" && TrimSpace(id) == id }

  predicate SameTrigger(a: DesiredRule, b: DesiredRule) {
    a.compartmentId == b.compartmentId && a.triggerName == b.triggerName && a.namespace == b.namespace && a.uid == b.uid
  }

  /** A live rule of the trigger's compartment that carries the trigger's tags. */
  predicate Tagged(rules: Rules, who: DesiredRule, id: string) {
    id in rules && rules[id].compartment == who.compartmentId && Live(rules[id].lifecycle) && MatchesTrigger(rules[id].tags, who)
  }

  ghost predicate AtMostOne(rules: Rules, who: DesiredRule) {
    forall a, b :: Tagged(rules, who, a) && Tagged(rules, who, b) ==> a == b
  }

  /** The recorded id, if any, is the only candidate. */
  ghost predicate Recorded(rules: Rules, who: DesiredRule, ruleId: string) {
    ruleId != "" ==> forall a :: Tagged(rules, who, a) ==> a == ruleId
  }

  ghost predicate NoneTagged(rules: Rules, who: DesiredRule) { forall a :: !Tagged(rules, who, a) }

  ghost predicate Inv(rules: Rules, who: DesiredRule, ruleId: string) {
    CleanIds(rules) && AtMostOne(rules, who) && Recorded(rules, who, ruleId)
  }

  // ---------------------------------------------------------------- what may be answered

  /** The listing tells of every rule of the compartment, and nothing else. */
  ghost predicate CompleteListing(rules: Rules, compartment: string, items: seq<Summary>) {
    && (forall id :: id in rules && rules[id].compartment == compartment ==>
          exists i :: 0 <= i < |items| && items[i] == Summary(Some(id), rules[id].tags, rules[id].lifecycle))
    && (forall i :: 0 <= i < |items| && StringValue(items[i].id) != "" ==>
          var id := StringValue(items[i].id);
          id in rules && rules[id].compartment == compartment && rules[id].tags == items[i].tags && rules[id].lifecycle == items[i].lifecycle)
  }

  /** Faults and lost answers are allowed; invented rules and reused ids are not. */
  ghost predicate Honest(rules: Rules, who: DesiredRule, weather: Weather) {
    && CompleteListing(rules, who.compartmentId, Flatten(weather.pages))
    && (!weather.create.CreateRejected? ==>
          weather.create.id !in rules && weather.create.id != "" && TrimSpace(weather.create.id) == weather.create.id)
  }

  predicate Fair(weather: Weather) {
    weather.byId == NoFault && weather.listFailsAt >= PageCount(weather.pages) && weather.listed == NoFault
  }

  lemma {:induction false} FirstWantedIsWanted(items: seq<Summary>, desired: DesiredRule)
    ensures match FirstWanted(items, desired)
            case Some(id) => exists i :: 0 <= i < |items| && Wanted(items[i], desired) && StringValue(items[i].id) == id
            case None => forall i :: 0 <= i < |items| ==> !Wanted(items[i], desired)
  {
    hide Wanted, StringValue;
    if items != [] && !Wanted(items[0], desired) {
      FirstWantedIsWanted(items[1..], desired);
      if FirstWanted(items, desired).Some? {
        var i :| 0 <= i < |items| - 1 && Wanted(items[1..][i], desired) && StringValue(items[1..][i].id) == FirstWanted(items, desired).value;
        assert items[i + 1] == items[1..][i];
      } else {
        forall i | 0 <= i < |items| ensures !Wanted(items[i], desired) {
          if i > 0 {
            assert items[i] == items[1..][i - 1];
          }
        }
      }
    }
  }

  lemma {:induction false} WantedIsTagged(rules: Rules, desired: DesiredRule, items: seq<Summary>)
    requires CompleteListing(rules, desired.compartmentId, items) && CleanIds(rules)
    ensures match FirstWanted(items, desired)
            case Some(id) => Tagged(rules, desired, id)
            case None => NoneTagged(rules, desired)
  {
    hide FirstWanted, MatchesTrigger, TrimSpace;
    FirstWantedIsWanted(items, desired);
    if FirstWanted(items, desired).None? {
      forall a ensures !Tagged(rules, desired, a) {
        if a in rules && rules[a].compartment == desired.compartmentId {
          var i :| 0 <= i < |items| && items[i] == Summary(Some(a), rules[a].tags, rules[a].lifecycle);
          assert !Wanted(items[i], desired);
        }
      }
    }
  }

  /** Of a complete listing the search, wherever it stops, finds a rule of the trigger, and
      it reports none only if there is none. */
  lemma {:induction false} FindIsExact(rules: Rules, desired: DesiredRule, weather: Weather)
    requires CleanIds(rules) && CompleteListing(rules, desired.compartmentId, Flatten(weather.pages))
    ensures match Find(rules, desired, weather)
            case FoundRule(id, rule) => id in rules && rule == rules[id] && (id == desired.ruleId || Tagged(rules, desired, id))
            case NoRule => NoneTagged(rules, desired)
            case FindFailed => true
  {
    hide FirstWanted, Flatten, Tagged, CompleteListing, CleanIds;
    FoundIsStored(rules, desired, weather);
    WantedIsTagged(rules, desired, Flatten(weather.pages));
    if FirstWanted(Listed(weather), desired).Some? && weather.listFailsAt < |weather.pages| {
      EarlyPages(weather.pages, weather.listFailsAt, desired);
    }
  }

  lemma {:induction false} TagsMatch(desired: DesiredRule)
    ensures MatchesTrigger(ManagedTags(desired), desired)
  {
  }

  /** A rule is a trigger's exactly if its three tags are there and name the trigger. */
  lemma {:induction false} TagsNameTheTrigger(tags: map<string, string>, desired: DesiredRule)
    requires desired.triggerName != "" && desired.namespace != "" && desired.uid != ""
    ensures MatchesTrigger(tags, desired) <==>
              && "oci-functions-operator-trigger-name" in tags && tags["oci-functions-operator-trigger-name"] == desired.triggerName
              && "oci-functions-operator-trigger-namespace" in tags && tags["oci-functions-operator-trigger-namespace"] == desired.namespace
              && "oci-functions-operator-trigger-uid" in tags && tags["oci-functions-operator-trigger-uid"] == desired.uid
  {
  }

  lemma {:induction false} SameTagged(rules: Rules, a: DesiredRule, b: DesiredRule)
    requires SameTrigger(a, b)
    ensures forall id :: Tagged(rules, a, id) <==> Tagged(rules, b, id)
  {
  }

  // ---------------------------------------------------------------- one call

  /** One call keeps the invariant for the id it reports, and for no id. */
  lemma {:induction false} EnsureKeeps(rules: Rules, desired: DesiredRule, weather: Weather, normalize: Normalizer)
    requires Inv(rules, desired, desired.ruleId) && Honest(rules, desired, weather)
    ensures var effect := Ensure(rules, desired, weather, normalize);
            Inv(effect.rules, desired, effect.state.ruleId) && TrimSpace(effect.state.ruleId) == effect.state.ruleId
  {
    hide Find, ValidDesired, RuleNeedsUpdate, MatchesTrigger, TrimSpace, CompleteListing;
    FindIsExact(rules, desired, weather);
    BlankIsClean();
    var effect := Ensure(rules, desired, weather, normalize);
    match Find(rules, desired, weather)
    case FoundRule(id, rule) =>
      assert forall a :: Tagged(rules, desired, a) ==> a == id;
      assert forall a :: a != id ==> (Tagged(effect.rules, desired, a) <==> Tagged(rules, desired, a));
    case NoRule =>
      if !weather.create.CreateRejected? {
        assert forall a :: a != weather.create.id ==> (Tagged(effect.rules, desired, a) <==> Tagged(rules, desired, a));
      }
    case FindFailed =>
  }

  lemma {:induction false} BlankIsClean()
    ensures TrimSpace("") == ""
  {
  }

  /** A call writes at most once, touches at most one rule, and none when it cannot find out
      whether one exists.  It never moves a rule and never changes its life cycle. */
  lemma {:induction false} EnsureFrame(rules: Rules, desired: DesiredRule, weather: Weather, normalize: Normalizer)
    ensures var effect := Ensure(rules, desired, weather, normalize);
            && |effect.writes| <= 1
            && (effect.writes == [] ==> effect.rules == rules)
            && (!ValidDesired(desired) || Find(rules, desired, weather).FindFailed? ==> effect.writes == [] && effect.state.failed)
            && (effect.writes == [WriteCreate] ==> Find(rules, desired, weather) == NoRule)
            && forall a :: a in rules && (effect.writes == [] || effect.writes[0] != WriteUpdate(a))
                           && (weather.create.CreateRejected? || weather.create.id != a) ==>
                             a in effect.rules && effect.rules[a] == rules[a]
    ensures var after := Ensure(rules, desired, weather, normalize).rules;
            forall a :: a in rules && (weather.create.CreateRejected? || weather.create.id != a) ==>
              a in after && after[a].compartment == rules[a].compartment && after[a].lifecycle == rules[a].lifecycle
  {
    hide Find, ValidDesired, RuleNeedsUpdate;
  }

  // ---------------------------------------------------------------- convergence

  /** The rule says what the trigger asks for. */
  predicate AsDesired(rule: Rule, desired: DesiredRule, normalize: Normalizer) {
    && TrimSpace(rule.displayName) == desired.displayName && TrimSpace(rule.description) == desired.description
    && rule.enabled == desired.isEnabled && SameConditionJSON(TrimSpace(rule.condition), desired.conditionJSON, normalize)
    && rule.tags == ManagedTags(desired)
    && RuleFunctionID(rule) == desired.functionId && RuleActionEnabled(rule) == desired.isEnabled
  }

  /** The rule serves the trigger: it says so and it is live. */
  predicate Serves(rule: Rule, desired: DesiredRule, normalize: Normalizer) {
    Live(rule.lifecycle) && AsDesired(rule, desired, normalize)
  }

  /** The recorded id answers, with a rule that is deleted or being deleted. */
  predicate AnswersDead(rules: Rules, desired: DesiredRule, weather: Weather) {
    && desired.ruleId != "" && weather.byId == NoFault && desired.ruleId in rules
    && !Live(rules[desired.ruleId].lifecycle)
  }

  predicate CreatesDead(effect: Effect, weather: Weather) {
    effect.writes == [WriteCreate] && (weather.create.CreateRejected? || !Live(weather.create.lifecycle))
  }

  /** The service returns texts as they were sent, the manager compares them trimmed. */
  predicate SurvivesTrimming(desired: DesiredRule, normalize: Normalizer) {
    && TrimSpace(desired.displayName) == desired.displayName && TrimSpace(desired.description) == desired.description
    && TrimSpace(desired.functionId) == desired.functionId
    && SameConditionJSON(TrimSpace(desired.conditionJSON), desired.conditionJSON, normalize)
  }

  lemma {:induction false} SentRuleIsAsDesired(desired: DesiredRule, rule: Rule, normalize: Normalizer)
    requires rule.(compartment := desired.compartmentId) == NewRule(desired, rule.lifecycle)
    ensures AsDesired(rule, desired, normalize) <==> SurvivesTrimming(desired, normalize)
  {
    hide TrimSpace;
    assert FirstFaaS(rule.actions) == Some(FaaSAction(desired.functionId, desired.isEnabled));
  }

  lemma {:induction false} AsDesiredIffNoUpdate(rule: Rule, desired: DesiredRule, normalize: Normalizer)
    ensures AsDesired(rule, desired, normalize) <==> !RuleNeedsUpdate(rule, desired, normalize)
  {
    hide TrimSpace, SameConditionJSON, RuleFunctionID, RuleActionEnabled;
  }

  /** After a call that succeeds the reported rule is as desired exactly if nothing had to be
      written or what was written survives trimming.  It is live unless the recorded id led to
      a dead one, which the search by id accepts, or the new one was created dead. */
  lemma {:induction false} EnsuredRuleServes(rules: Rules, desired: DesiredRule, weather: Weather, normalize: Normalizer)
    requires CleanIds(rules) && Honest(rules, desired, weather)
    ensures var effect := Ensure(rules, desired, weather, normalize);
            !effect.state.failed ==>
              && effect.state.ruleId in effect.rules && effect.state.ruleId != ""
              && var rule := effect.rules[effect.state.ruleId];
                 && (AsDesired(rule, desired, normalize) <==> effect.writes == [] || SurvivesTrimming(desired, normalize))
                 && (Serves(rule, desired, normalize) <==>
                       AsDesired(rule, desired, normalize) && !AnswersDead(rules, desired, weather) && !CreatesDead(effect, weather))
  {
    hide Find, ValidDesired, RuleNeedsUpdate, AsDesired, SurvivesTrimming, NewRule, CompleteListing, TrimSpace, AnswersDead, MatchesTrigger;
    FoundIsStored(rules, desired, weather);
    var effect := Ensure(rules, desired, weather, normalize);
    if !effect.state.failed {
      ReportedIsLive(rules, desired, weather, normalize);
      var rule := effect.rules[effect.state.ruleId];
      if effect.writes == [] {
        AsDesiredIffNoUpdate(rule, desired, normalize);
      } else {
        NewRuleIs(rules, desired, weather, normalize);
        SentRuleIsAsDesired(desired, rule, normalize);
      }
    }
  }

  /** Which rules the search finds that are not live. */
  lemma {:induction false} FoundDead(rules: Rules, desired: DesiredRule, weather: Weather)
    requires CleanIds(rules) && CompleteListing(rules, desired.compartmentId, Flatten(weather.pages))
    ensures match Find(rules, desired, weather)
            case FoundRule(id, rule) => !Live(rule.lifecycle) <==> AnswersDead(rules, desired, weather)
            case _ => !AnswersDead(rules, desired, weather)
  {
    hide FirstWanted, Flatten, CompleteListing, CleanIds, MatchesTrigger;
    FoundIsStored(rules, desired, weather);
    WantedIsTagged(rules, desired, Flatten(weather.pages));
    if FirstWanted(Listed(weather), desired).Some? && weather.listFailsAt < |weather.pages| {
      EarlyPages(weather.pages, weather.listFailsAt, desired);
    }
  }

  /** The reported rule is live exactly if no dead rule was found by its id and none created. */
  lemma {:induction false} ReportedIsLive(rules: Rules, desired: DesiredRule, weather: Weather, normalize: Normalizer)
    requires CleanIds(rules) && Honest(rules, desired, weather)
    ensures var effect := Ensure(rules, desired, weather, normalize);
            !effect.state.failed && effect.state.ruleId in effect.rules ==>
              (Live(effect.rules[effect.state.ruleId].lifecycle) <==> !AnswersDead(rules, desired, weather) && !CreatesDead(effect, weather))
  {
    hide Find, ValidDesired, RuleNeedsUpdate, CompleteListing, TrimSpace, AnswersDead, MatchesTrigger;
    FoundIsStored(rules, desired, weather);
    FoundDead(rules, desired, weather);
  }

  lemma {:induction false} NewRuleIs(rules: Rules, desired: DesiredRule, weather: Weather, normalize: Normalizer)
    requires CleanIds(rules) && Honest(rules, desired, weather)
    ensures var effect := Ensure(rules, desired, weather, normalize);
            !effect.state.failed && effect.writes != [] ==>
              && effect.state.ruleId in effect.rules
              && var rule := effect.rules[effect.state.ruleId];
                 rule.(compartment := desired.compartmentId) == NewRule(desired, rule.lifecycle)
  {
    hide Find, ValidDesired, RuleNeedsUpdate, CompleteListing, TrimSpace;
    FoundIsStored(rules, desired, weather);
  }

  /** Rule convergence.  After a call that succeeds, a second one that can read writes nothing
      exactly if the first wrote nothing or what it wrote survives trimming; it then changes
      nothing and reports the same id. */
  lemma {:induction false} SecondCallReads(rules: Rules, desired: DesiredRule, first: Weather, second: Weather, normalize: Normalizer)
    requires CleanIds(rules) && Honest(rules, desired, first) && Fair(second)
    requires !Ensure(rules, desired, first, normalize).state.failed
    ensures var one := Ensure(rules, desired, first, normalize);
            var two := Ensure(one.rules, desired.(ruleId := one.state.ruleId), second, normalize);
            && (two.writes == [] <==> one.writes == [] || SurvivesTrimming(desired, normalize))
            && (two.writes == [] ==> two.rules == one.rules && two.state.ruleId == one.state.ruleId && !two.state.failed)
  {
    hide AsDesired, TrimSpace, CompleteListing, NewRule, SurvivesTrimming;
    EnsuredRuleServes(rules, desired, first, normalize);
    var one := Ensure(rules, desired, first, normalize);
    var again := desired.(ruleId := one.state.ruleId);
    AsDesiredIffNoUpdate(one.rules[one.state.ruleId], again, normalize);
    AsDesiredSame(one.rules[one.state.ruleId], desired, again, normalize);
    hide *;
    FoundById(one.rules, again, second);
    KnownRuleEffect(one.rules, again, second, normalize);
    EnsureValid(rules, desired, first, normalize);
    SameValid(desired, again);
  }

  lemma {:induction false} AsDesiredSame(rule: Rule, a: DesiredRule, b: DesiredRule, normalize: Normalizer)
    requires b == a.(ruleId := b.ruleId)
    ensures AsDesired(rule, a, normalize) == AsDesired(rule, b, normalize)
  {
    hide TrimSpace, SameConditionJSON, RuleFunctionID, RuleActionEnabled;
  }

  lemma {:induction false} SameValid(a: DesiredRule, b: DesiredRule)
    requires b == a.(ruleId := b.ruleId)
    ensures ValidDesired(a) == ValidDesired(b)
  {
    hide TrimSpace;
  }

  lemma {:induction false} EnsureValid(rules: Rules, desired: DesiredRule, weather: Weather, normalize: Normalizer)
    requires !Ensure(rules, desired, weather, normalize).state.failed
    ensures ValidDesired(desired)
  {
    hide ValidDesired, Find, RuleNeedsUpdate;
  }

  lemma {:induction false} FoundById(rules: Rules, desired: DesiredRule, weather: Weather)
    requires desired.ruleId in rules && desired.ruleId != "" && Fair(weather)
    ensures Find(rules, desired, weather) == FoundRule(desired.ruleId, rules[desired.ruleId])
  {
    hide FirstWanted, Flatten;
  }

  lemma {:induction false} KnownRuleEffect(rules: Rules, desired: DesiredRule, weather: Weather, normalize: Normalizer)
    requires Find(rules, desired, weather).FoundRule? && ValidDesired(desired)
    ensures var finding := Find(rules, desired, weather);
            var effect := Ensure(rules, desired, weather, normalize);
            && (effect.writes == [] <==> !RuleNeedsUpdate(finding.rule, desired, normalize))
            && (effect.writes == [] ==> effect.rules == rules && !effect.state.failed && effect.state.ruleId == finding.id)
  {
    hide Find, ValidDesired, RuleNeedsUpdate;
  }

  /** The same when the recorded id is lost in between: the tags lead back to the rule, if it
      is live and in the compartment asked for. */
  lemma {:induction false} SecondCallWithoutId(rules: Rules, desired: DesiredRule, first: Weather, second: Weather, normalize: Normalizer)
    requires Inv(rules, desired, desired.ruleId) && Honest(rules, desired, first) && SurvivesTrimming(desired, normalize)
    requires !Ensure(rules, desired, first, normalize).state.failed
    requires var one := Ensure(rules, desired, first, normalize);
             && Fair(second) && Honest(one.rules, desired, second) && one.state.ruleId in one.rules
             && one.rules[one.state.ruleId].compartment == desired.compartmentId && Live(one.rules[one.state.ruleId].lifecycle)
    ensures var one := Ensure(rules, desired, first, normalize);
            var two := Ensure(one.rules, desired.(ruleId := ""), second, normalize);
            two.writes == [] && two.rules == one.rules && two.state.ruleId == one.state.ruleId && !two.state.failed
  {
    hide TrimSpace, CompleteListing, NewRule, SurvivesTrimming, Find, ValidDesired, RuleNeedsUpdate, Ensure, AsDesired, Fair, Honest;
    EnsuredRuleServes(rules, desired, first, normalize);
    EnsureKeeps(rules, desired, first, normalize);
    EnsureValid(rules, desired, first, normalize);
    var one := Ensure(rules, desired, first, normalize);
    var again := desired.(ruleId := "");
    var rule := one.rules[one.state.ruleId];
    AsDesiredSame(rule, desired, again, normalize);
    AsDesiredIffNoUpdate(rule, again, normalize);
    SameValid(desired, again);
    LiveIsTagged(one.rules, one.state.ruleId, desired, normalize);
    SameTagged(one.rules, desired, again);
    HonestSameTrigger(one.rules, desired, again, second);
    FoundByTags(one.rules, again, second, one.state.ruleId);
    KnownRuleEffect(one.rules, again, second, normalize);
  }

  lemma {:induction false} LiveIsTagged(rules: Rules, id: string, desired: DesiredRule, normalize: Normalizer)
    requires id in rules && AsDesired(rules[id], desired, normalize)
    requires rules[id].compartment == desired.compartmentId && Live(rules[id].lifecycle)
    ensures Tagged(rules, desired, id)
  {
    hide TrimSpace;
    TagsMatch(desired);
  }

  lemma {:induction false} FoundByTags(rules: Rules, desired: DesiredRule, weather: Weather, id: string)
    requires CleanIds(rules) && Honest(rules, desired, weather) && Fair(weather) && desired.ruleId == ""
    requires Tagged(rules, desired, id) && AtMostOne(rules, desired)
    ensures Find(rules, desired, weather) == FoundRule(id, rules[id])
  {
    hide FirstWanted, Flatten, CompleteListing, MatchesTrigger, Wanted;
    WantedIsTagged(rules, desired, Flatten(weather.pages));
  }

  /** The desired rule of a trigger always survives: its names are trimmed, and a condition the
      controller has encoded has no white space around it. */
  lemma {:induction false} TriggerRuleSurvives(resource: TriggerResource, functionId: string, conditionJSON: string, normalize: Normalizer)
    requires TrimSpace(conditionJSON) == conditionJSON
    ensures SurvivesTrimming(DesiredRuleFromTrigger(resource, functionId, conditionJSON), normalize)
  {
    TrimTwice(resource.trigger.displayName);
    TrimTwice(resource.description);
    TrimTwice(functionId);
  }

  /** A recorded rule is kept wherever it is: asking for another compartment neither moves it
      nor creates one there. */
  lemma {:induction false} CompartmentChangeIgnored(
      rules: Rules, desired: DesiredRule, compartment: string, weather: Weather, normalize: Normalizer)
    requires desired.ruleId in rules && desired.ruleId != "" && Fair(weather)
    requires ValidDesired(desired) && TrimSpace(compartment) != "" && AsDesired(rules[desired.ruleId], desired, normalize)
    ensures var effect := Ensure(rules, desired.(compartmentId := compartment), weather, normalize);
            effect.writes == [] && effect.rules == rules && effect.state.ruleId == desired.ruleId && !effect.state.failed
  {
    var moved := desired.(compartmentId := compartment);
    FoundById(rules, moved, weather);
    KnownRuleEffect(rules, moved, weather, normalize);
    AsDesiredIffNoUpdate(rules[desired.ruleId], moved, normalize);
  }

  // ---------------------------------------------------------------- a dead recorded rule

  datatype ManagerCall = ManagerCall(desired: DesiredRule, weather: Weather)

  /** The rules and the recorded id after calls that each record the id they report. */
  function Calls(rules: Rules, ruleId: string, calls: seq<ManagerCall>, normalize: Normalizer): (Rules, string)
    decreases |calls|
  {
    if calls == [] then (rules, ruleId)
    else
      var effect := Ensure(rules, calls[0].desired.(ruleId := ruleId), calls[0].weather, normalize);
      Calls(effect.rules, effect.state.ruleId, calls[1..], normalize)
  }

  /** A call whose recorded id answers with a dead rule reports that id again, whatever becomes
      of the update; it creates nothing, and does not bring the rule back to life. */
  lemma {:induction false} DeadRuleOnce(rules: Rules, desired: DesiredRule, weather: Weather, normalize: Normalizer)
    requires ValidDesired(desired) && AnswersDead(rules, desired, weather)
    ensures var effect := Ensure(rules, desired, weather, normalize);
            && effect.state.ruleId == desired.ruleId && effect.rules.Keys == rules.Keys
            && effect.rules[desired.ruleId].lifecycle == rules[desired.ruleId].lifecycle
            && forall a :: a in rules && a != desired.ruleId ==> effect.rules[a] == rules[a]
  {
    hide ValidDesired, RuleNeedsUpdate, TrimSpace, FirstWanted;
  }

  /** So while the id answers a dead rule is never replaced, through any number of calls. */
  lemma {:induction false} DeadRuleIsNeverReplaced(rules: Rules, ruleId: string, calls: seq<ManagerCall>, normalize: Normalizer)
    requires ruleId in rules && ruleId != "" && !Live(rules[ruleId].lifecycle)
    requires forall k :: 0 <= k < |calls| ==> ValidDesired(calls[k].desired) && calls[k].weather.byId == NoFault
    ensures var (end, recorded) := Calls(rules, ruleId, calls, normalize);
            && recorded == ruleId && end.Keys == rules.Keys && !Live(end[ruleId].lifecycle)
            && forall a :: a in rules && a != ruleId ==> end[a] == rules[a]
    decreases |calls|
  {
    hide Ensure, ValidDesired;
    if calls != [] {
      var desired := calls[0].desired.(ruleId := ruleId);
      SameValid(calls[0].desired, desired);
      DeadRuleOnce(rules, desired, calls[0].weather, normalize);
      DeadRuleIsNeverReplaced(Ensure(rules, desired, calls[0].weather, normalize).rules, ruleId, calls[1..], normalize);
    }
  }

  // ---------------------------------------------------------------- runs

  /** What happens to a trigger and its rules: passes, the loss of the recorded id, edits of
      the trigger, and whatever others do to the rules. */
  datatype Step =
    | Sync(readiness: Readiness, weather: Weather, configured: bool)
    | Release(weather: Weather, configured: bool)
    | LoseStatus
    | Edit(resource: TriggerResource)
    | Outside(rules: Rules)

  function NextWorld(world: World, step: Step, normalize: Normalizer): World {
    match step
    case Sync(readiness, weather, configured) => SyncPass(world, readiness, weather, normalize, configured)
    case Release(weather, configured) => ReleasePass(world, weather, configured)
    case LoseStatus => world.(resource := world.resource.(ruleId := ""))
    case Edit(resource) => world.(resource := resource)
    case Outside(rules) => world.(rules := rules)
  }

  function Who(resource: TriggerResource): DesiredRule { DesiredRuleFromTrigger(resource, "", "") }

  /** Edits keep the identity, the compartment and the recorded id; others may change and
      delete rules but never give a rule this trigger's tags. */
  ghost predicate Allowed(world: World, step: Step) {
    match step
    case Sync(_, weather, _) => Honest(world.rules, Who(world.resource), weather)
    case Release(_, _) => true
    case LoseStatus => true
    case Edit(resource) => SameTrigger(Who(resource), Who(world.resource)) && resource.ruleId == world.resource.ruleId
    case Outside(rules) =>
      CleanIds(rules) && forall a :: Tagged(rules, Who(world.resource), a) ==> Tagged(world.rules, Who(world.resource), a)
  }

  ghost predicate WorldInv(world: World) {
    Inv(world.rules, Who(world.resource), world.resource.ruleId) && TrimSpace(world.resource.ruleId) == world.resource.ruleId
  }

  lemma {:induction false} InvSameTrigger(rules: Rules, a: DesiredRule, b: DesiredRule, ruleId: string)
    requires SameTrigger(a, b)
    ensures Inv(rules, a, ruleId) <==> Inv(rules, b, ruleId)
  {
    hide Tagged, CleanIds;
    SameTagged(rules, a, b);
  }

  lemma {:induction false} HonestSameTrigger(rules: Rules, a: DesiredRule, b: DesiredRule, weather: Weather)
    requires SameTrigger(a, b)
    ensures Honest(rules, a, weather) <==> Honest(rules, b, weather)
  {
  }

  lemma {:induction false} SyncKeeps(world: World, readiness: Readiness, weather: Weather, normalize: Normalizer, configured: bool)
    requires WorldInv(world) && Honest(world.rules, Who(world.resource), weather)
    ensures WorldInv(SyncPass(world, readiness, weather, normalize, configured))
    ensures SameTrigger(Who(SyncPass(world, readiness, weather, normalize, configured).resource), Who(world.resource))
  {
    hide Inv, Honest, Ensure, TrimSpace, RouteTrigger;
    var route := RouteTrigger(world.resource.trigger);
    var next := SyncPass(world, readiness, weather, normalize, configured);
    InvSameTrigger(world.rules, Who(world.resource), Who(next.resource), world.resource.ruleId);
    if route == RouteReady {
      BlankIsClean();
      InvBlank(world.rules, Who(next.resource), world.resource.ruleId);
    } else if route == ManageRule && readiness.Resolved? && configured {
      var desired := DesiredRuleFromTrigger(world.resource, readiness.functionId, readiness.conditionJSON);
      InvSameTrigger(world.rules, Who(world.resource), desired, world.resource.ruleId);
      HonestSameTrigger(world.rules, Who(world.resource), desired, weather);
      EnsureKeeps(world.rules, desired, weather, normalize);
      InvSameTrigger(next.rules, desired, Who(next.resource), next.resource.ruleId);
    }
  }

  lemma {:induction false} InvBlank(rules: Rules, who: DesiredRule, ruleId: string)
    requires Inv(rules, who, ruleId)
    ensures Inv(rules, who, "")
  {
  }

  lemma {:induction false} FewerTagged(rules: Rules, rules': Rules, who: DesiredRule, ruleId: string)
    requires Inv(rules, who, ruleId) && CleanIds(rules') && forall a :: Tagged(rules', who, a) ==> Tagged(rules, who, a)
    ensures Inv(rules', who, ruleId)
  {
    hide Tagged, CleanIds;
  }

  lemma {:induction false} StepKeeps(world: World, step: Step, normalize: Normalizer)
    requires WorldInv(world) && Allowed(world, step)
    ensures WorldInv(NextWorld(world, step, normalize))
  {
    hide Inv, Honest, TrimSpace, SyncPass, MatchesTrigger;
    match step
    case Sync(readiness, weather, configured) => SyncKeeps(world, readiness, weather, normalize, configured);
    case Release(weather, configured) =>
      var next := ReleasePass(world, weather, configured);
      InvClean(world.rules, Who(world.resource), world.resource.ruleId);
      FewerTagged(world.rules, next.rules, Who(world.resource), world.resource.ruleId);
      InvSameTrigger(next.rules, Who(world.resource), Who(next.resource), world.resource.ruleId);
    case LoseStatus =>
      BlankIsClean();
      var next := NextWorld(world, step, normalize);
      InvBlank(world.rules, Who(world.resource), world.resource.ruleId);
      InvSameTrigger(world.rules, Who(world.resource), Who(next.resource), "");
    case Edit(resource) => InvSameTrigger(world.rules, Who(world.resource), Who(resource), resource.ruleId);
    case Outside(rules) => FewerTagged(world.rules, rules, Who(world.resource), world.resource.ruleId);
  }

  lemma {:induction false} InvClean(rules: Rules, who: DesiredRule, ruleId: string)
    requires Inv(rules, who, ruleId)
    ensures CleanIds(rules)
  {
  }

  function Run(world: World, steps: seq<Step>, normalize: Normalizer): World
    decreases |steps|
  {
    if steps == [] then world else Run(NextWorld(world, steps[0], normalize), steps[1..], normalize)
  }

  ghost predicate AllowedRun(world: World, steps: seq<Step>, normalize: Normalizer)
    decreases |steps|
  {
    steps != [] ==> Allowed(world, steps[0]) && AllowedRun(NextWorld(world, steps[0], normalize), steps[1..], normalize)
  }

  /** Over every run there is at most one live rule with the trigger's tags, and the recorded
      id, if any, is its id. */
  lemma {:induction false} AtMostOneRule(world: World, steps: seq<Step>, normalize: Normalizer)
    requires WorldInv(world) && AllowedRun(world, steps, normalize)
    ensures WorldInv(Run(world, steps, normalize))
    ensures AtMostOne(Run(world, steps, normalize).rules, Who(Run(world, steps, normalize).resource))
    decreases |steps|
  {
    hide NextWorld, Allowed, AtMostOne, Recorded;
    if steps != [] {
      hide WorldInv;
      StepKeeps(world, steps[0], normalize);
      AtMostOneRule(NextWorld(world, steps[0], normalize), steps[1..], normalize);
    }
  }

  /** A fresh trigger starts in such a state. */
  lemma {:induction false} FreshTrigger(world: World)
    requires CleanIds(world.rules) && NoneTagged(world.rules, Who(world.resource)) && world.resource.ruleId == ""
    ensures WorldInv(world)
  {
    BlankIsClean();
  }

  /** The runs of a fresh trigger. */
  lemma {:induction false} FreshTriggerHasOneRule(world: World, steps: seq<Step>, normalize: Normalizer)
    requires CleanIds(world.rules) && NoneTagged(world.rules, Who(world.resource)) && world.resource.ruleId == ""
    requires AllowedRun(world, steps, normalize)
    ensures var end := Run(world, steps, normalize);
            && AtMostOne(end.rules, Who(end.resource))
            && Recorded(end.rules, Who(end.resource), end.resource.ruleId)
  {
    hide AllowedRun, Run, CleanIds;
    FreshTrigger(world);
    AtMostOneRule(world, steps, normalize);
  }

  /** When the deletion of a trigger lets the object go, no rule of it is left exactly if one
      was recorded or none existed.  A trigger whose recorded id was lost, to a create whose
      answer was lost for one, leaves its rule behind. */
  lemma {:induction false} WhatDeletionLeaves(world: World, weather: Weather, configured: bool)
    requires WorldInv(world) && world.resource.trigger.finalizer
    requires !ReleasePass(world, weather, configured).resource.trigger.finalizer
    requires world.resource.deletesRule
    requires weather.delete.Delete404? ==>
               world.resource.ruleId !in world.rules || !Live(world.rules[world.resource.ruleId].lifecycle)
    ensures NoneTagged(ReleasePass(world, weather, configured).rules, Who(world.resource)) <==>
              world.resource.ruleId != "" || NoneTagged(world.rules, Who(world.resource))
  {
    hide TrimSpace, MatchesTrigger;
    var next := ReleasePass(world, weather, configured);
    if world.resource.ruleId != "" {
      forall a ensures !Tagged(next.rules, Who(world.resource), a) {
        if a != world.resource.ruleId {
          assert Tagged(next.rules, Who(world.resource), a) <==> Tagged(world.rules, Who(world.resource), a);
        }
      }
    }
  }

  /** Turning a trigger into a pure functionevent route lets go of its rule without deleting it,
      and so does the deletion that may follow: it finds no finalizer and no id. */
  lemma {:induction false} RoutingForgetsRule(world: World, one: Readiness, two: Readiness, weather: Weather, weather': Weather, normalize: Normalizer, configured: bool)
    requires Classify(world.resource.trigger) == FunctionEventOnly && world.resource.trigger.finalizer
    ensures var next := SyncPass(SyncPass(world, one, weather, normalize, configured), two, weather', normalize, configured);
            && next.rules == world.rules && !next.resource.trigger.finalizer && next.resource.ruleId == ""
            && ReleasePass(next, weather, configured) == next
  {
    hide TrimSpace, Scan;
  }
}
