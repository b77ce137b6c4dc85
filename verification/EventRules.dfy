/** The manager of OCI Events rules and the service it talks to.

    The service keeps the rules it is sent.  What it answers is chosen by the environment
    of each call: how a listing is cut into pages, which call fails, whether the answer to
    a write is lost.  A rule is found by its id or by a paged search for the three tags of
    its trigger. */
module EventRules {
  import opened Invocations
  import opened Strings
  import opened CloudAnswers

  // ---------------------------------------------------------------- rules

  datatype Action = FaaSAction(functionId: string, enabled: bool) | OtherAction(otherEnabled: bool)

  datatype Rule = Rule(
    compartment: string, displayName: string, description: string, enabled: bool, condition: string,
    actions: seq<Action>, tags: map<string, string>, lifecycle: Lifecycle)

  type Rules = map<string, Rule>

  datatype Summary = Summary(id: Option<string>, tags: map<string, string>, lifecycle: Lifecycle)

  datatype DesiredRule = DesiredRule(
    compartmentId: string, displayName: string, description: string, isEnabled: bool, conditionJSON: string,
    functionId: string, ruleId: string, triggerName: string, namespace: string, uid: string)

  /** What a manager call reports; failed stands for a non-nil error. */
  datatype RuleState = RuleState(ruleId: string, ready: bool, failed: bool)

  const NAME_TAG := "oci-functions-operator-trigger-name"
  const NAMESPACE_TAG := "oci-functions-operator-trigger-namespace"
  const UID_TAG := "oci-functions-operator-trigger-uid"

  function ManagedTags(desired: DesiredRule): map<string, string> {
    map[NAME_TAG := desired.triggerName, NAMESPACE_TAG := desired.namespace, UID_TAG := desired.uid]
  }

  /** Reading an absent key of a Go map gives the empty string. */
  function Lookup(tags: map<string, string>, key: string): string { if key in tags then tags[key] else "" }

  predicate MatchesTrigger(tags: map<string, string>, desired: DesiredRule) {
    && Lookup(tags, UID_TAG) == desired.uid
    && Lookup(tags, NAME_TAG) == desired.triggerName
    && Lookup(tags, NAMESPACE_TAG) == desired.namespace
  }

  function StringValue(value: Option<string>): string { if value.None? then "" else TrimSpace(value.value) }

  predicate ValidDesired(desired: DesiredRule) {
    && TrimSpace(desired.compartmentId) != "" && TrimSpace(desired.displayName) != ""
    && TrimSpace(desired.conditionJSON) != "" && TrimSpace(desired.functionId) != ""
    && TrimSpace(desired.triggerName) != "" && TrimSpace(desired.namespace) != "" && TrimSpace(desired.uid) != ""
  }

  function FirstFaaS(actions: seq<Action>): Option<Action> {
    if actions == [] then None else if actions[0].FaaSAction? then Some(actions[0]) else FirstFaaS(actions[1..])
  }

  function RuleFunctionID(rule: Rule): string {
    match FirstFaaS(rule.actions) case Some(FaaSAction(functionId, _)) => TrimSpace(functionId) case _ => ""
  }

  predicate RuleActionEnabled(rule: Rule) {
    match FirstFaaS(rule.actions) case Some(FaaSAction(_, enabled)) => enabled case _ => false
  }

  /** Decoding and encoding a JSON text again; None when it does not parse. */
  type Normalizer = string -> Option<string>

  predicate SameConditionJSON(a: string, b: string, normalize: Normalizer) {
    if normalize(a).Some? && normalize(b).Some? then normalize(a) == normalize(b) else TrimSpace(a) == TrimSpace(b)
  }

  predicate RuleNeedsUpdate(rule: Rule, desired: DesiredRule, normalize: Normalizer) {
    || TrimSpace(rule.displayName) != desired.displayName
    || TrimSpace(rule.description) != desired.description
    || rule.enabled != desired.isEnabled
    || !SameConditionJSON(TrimSpace(rule.condition), desired.conditionJSON, normalize)
    || rule.tags != ManagedTags(desired)
    || RuleFunctionID(rule) != desired.functionId
    || RuleActionEnabled(rule) != desired.isEnabled
  }

  predicate RuleReady(rule: Rule) { rule.lifecycle == Active || rule.lifecycle == Inactive }

  function NewRule(desired: DesiredRule, lifecycle: Lifecycle): Rule {
    Rule(desired.compartmentId, desired.displayName, desired.description, desired.isEnabled, desired.conditionJSON,
         [FaaSAction(desired.functionId, desired.isEnabled)], ManagedTags(desired), lifecycle)
  }

  /** An update replaces everything but the compartment and the lifecycle. */
  function UpdatedRule(rule: Rule, desired: DesiredRule): Rule {
    NewRule(desired, rule.lifecycle).(compartment := rule.compartment)
  }

  // ---------------------------------------------------------------- the service's answers

  /** What the environment does to one manager call. */
  datatype Weather = Weather(
    byId: Fault, pages: seq<seq<Summary>>, listFailsAt: nat, listed: Fault,
    create: CreateOutcome, update: WriteOutcome, delete: DeleteOutcome)

  datatype GetAnswer = Got(rule: Rule) | GetNotFound | GetFailed

  function Get(rules: Rules, id: string, fault: Fault): GetAnswer {
    if fault.OtherFault? then GetFailed else if fault.Answers404? || id !in rules then GetNotFound else Got(rules[id])
  }

  datatype Write = WriteCreate | WriteUpdate(id: string) | WriteDelete(id: string)

  function AfterCreate(rules: Rules, desired: DesiredRule, outcome: CreateOutcome): Rules {
    if outcome.CreateRejected? then rules else rules[outcome.id := NewRule(desired, outcome.lifecycle)]
  }

  function AfterUpdate(rules: Rules, id: string, desired: DesiredRule, outcome: WriteOutcome): Rules {
    if outcome.WriteRejected? || id !in rules then rules else rules[id := UpdatedRule(rules[id], desired)]
  }

  function AfterDelete(rules: Rules, id: string, outcome: DeleteOutcome): Rules {
    if (outcome.DeleteAnswered? || outcome.DeleteLost?) && id in rules then rules[id := rules[id].(lifecycle := Deleting)] else rules
  }

  // ---------------------------------------------------------------- what the calls do

  /** The first k pages as one listing. */
  function Prefix(weather: Weather, k: nat): seq<Summary> {
    Flatten(if k < |weather.pages| then weather.pages[..k] else weather.pages)
  }

  /** The pages that are delivered, as one listing. */
  function Listed(weather: Weather): seq<Summary> { Prefix(weather, weather.listFailsAt) }

  predicate Wanted(summary: Summary, desired: DesiredRule) {
    Live(summary.lifecycle) && MatchesTrigger(summary.tags, desired) && StringValue(summary.id) != ""
  }

  /** A linear search. */
  function FirstWanted(items: seq<Summary>, desired: DesiredRule): Option<string> {
    if items == [] then None
    else if Wanted(items[0], desired) then Some(StringValue(items[0].id))
    else FirstWanted(items[1..], desired)
  }

  datatype Finding = FoundRule(id: string, rule: Rule) | NoRule | FindFailed

  /** By id unless there is none or it answers 404, then by a linear search of the listing. */
  function Find(rules: Rules, desired: DesiredRule, weather: Weather): Finding {
    var byId := if desired.ruleId == "" then GetNotFound else Get(rules, desired.ruleId, weather.byId);
    match byId
    case Got(rule) => FoundRule(desired.ruleId, rule)
    case GetFailed => FindFailed
    case GetNotFound =>
      match FirstWanted(Listed(weather), desired)
      case None => if weather.listFailsAt < PageCount(weather.pages) then FindFailed else NoRule
      case Some(id) =>
        match Get(rules, id, weather.listed)
        case Got(rule) => FoundRule(id, rule)
        case _ => FindFailed
  }

  datatype Effect = Effect(rules: Rules, state: RuleState, writes: seq<Write>)

  function Ensure(rules: Rules, desired: DesiredRule, weather: Weather, normalize: Normalizer): Effect {
    if !ValidDesired(desired) then Effect(rules, RuleState("", false, true), [])
    else
      match Find(rules, desired, weather)
      case FindFailed => Effect(rules, RuleState("", false, true), [])
      case NoRule =>
        Effect(AfterCreate(rules, desired, weather.create),
               if weather.create.CreateAnswered?
               then RuleState(TrimSpace(weather.create.id), RuleReady(NewRule(desired, weather.create.lifecycle)), false)
               else RuleState("", false, true),
               [WriteCreate])
      case FoundRule(id, rule) =>
        if RuleNeedsUpdate(rule, desired, normalize) then
          Effect(AfterUpdate(rules, id, desired, weather.update),
                 RuleState(id, weather.update.WriteAnswered? && RuleReady(rule), !weather.update.WriteAnswered?),
                 [WriteUpdate(id)])
        else Effect(rules, RuleState(id, RuleReady(rule), false), [])
  }

  /** A deletion answered with 404 counts as done. */
  function Delete(rules: Rules, ruleId: string, weather: Weather): Effect {
    var id := TrimSpace(ruleId);
    if id == "" then Effect(rules, RuleState("", true, false), [])
    else
      var done := weather.delete.DeleteAnswered? || weather.delete.Delete404?;
      Effect(AfterDelete(rules, id, weather.delete), RuleState(id, done, !done), [WriteDelete(id)])
  }

  // ---------------------------------------------------------------- searching page by page

  lemma {:induction false} FirstWantedAppend(a: seq<Summary>, b: seq<Summary>, desired: DesiredRule)
    ensures FirstWanted(a + b, desired) == if FirstWanted(a, desired).Some? then FirstWanted(a, desired) else FirstWanted(b, desired)
  {
    hide Wanted, StringValue;
    if a == [] {
      assert a + b == b;
    } else {
      assert (a + b)[1..] == a[1..] + b;
      FirstWantedAppend(a[1..], b, desired);
    }
  }

  lemma {:induction false} FirstWantedAt(items: seq<Summary>, i: nat, desired: DesiredRule)
    requires i < |items|
    ensures FirstWanted(items[..i + 1], desired) ==
              if FirstWanted(items[..i], desired).Some? then FirstWanted(items[..i], desired)
              else if Wanted(items[i], desired) then Some(StringValue(items[i].id)) else None
  {
    hide Wanted, StringValue;
    assert items[..i + 1] == items[..i] + [items[i]];
    FirstWantedAppend(items[..i], [items[i]], desired);
    assert [items[i]][1..] == [];
  }

  /** What the first pages yield, the whole listing yields. */
  lemma {:induction false} EarlyPages(pages: seq<seq<Summary>>, k: nat, desired: DesiredRule)
    requires k <= |pages| && FirstWanted(Flatten(pages[..k]), desired).Some?
    ensures FirstWanted(Flatten(pages), desired) == FirstWanted(Flatten(pages[..k]), desired)
    decreases |pages|
  {
    hide FirstWanted;
    if k == |pages| {
      assert pages[..k] == pages;
    } else {
      var n := |pages| - 1;
      assert pages[..n][..k] == pages[..k];
      EarlyPages(pages[..n], k, desired);
      FirstWantedAppend(Flatten(pages[..n]), pages[n], desired);
    }
  }

  lemma {:induction false} EarlyPrefix(weather: Weather, k: nat, desired: DesiredRule)
    requires k <= weather.listFailsAt && FirstWanted(Prefix(weather, k), desired).Some?
    ensures FirstWanted(Listed(weather), desired) == FirstWanted(Prefix(weather, k), desired)
  {
    hide FirstWanted, Flatten;
    var n := weather.listFailsAt;
    var delivered := if n < |weather.pages| then weather.pages[..n] else weather.pages;
    if k < |weather.pages| {
      assert delivered[..k] == weather.pages[..k];
      EarlyPages(delivered, k, desired);
    }
  }

  lemma {:induction false} NextPrefix(weather: Weather, k: nat, desired: DesiredRule)
    ensures FirstWanted(Prefix(weather, k + 1), desired) ==
              if FirstWanted(Prefix(weather, k), desired).Some? then FirstWanted(Prefix(weather, k), desired)
              else FirstWanted(Page(weather.pages, k), desired)
  {
    hide Wanted, StringValue;
    if k < |weather.pages| {
      var pages := if k + 1 < |weather.pages| then weather.pages[..k + 1] else weather.pages;
      assert pages[..|pages| - 1] == weather.pages[..k];
      FirstWantedAppend(Flatten(weather.pages[..k]), weather.pages[k], desired);
    }
  }

  // ---------------------------------------------------------------- the service and the manager

  class EventsService {
    var rules: Rules
    var writes: seq<Write>

    constructor (rules: Rules)
      ensures this.rules == rules && writes == []
    {
      this.rules := rules;
      writes := [];
    }

    method GetRule(id: string, fault: Fault) returns (answer: GetAnswer)
      ensures answer == Get(rules, id, fault)
    {
      answer := Get(rules, id, fault);
    }

    /** The items of a page and whether another page follows; None when the call fails. */
    method ListRules(weather: Weather, k: nat) returns (answer: Option<(seq<Summary>, bool)>)
      ensures answer == if k == weather.listFailsAt then None else Some((Page(weather.pages, k), k + 1 < |weather.pages|))
    {
      answer := if k == weather.listFailsAt then None else Some((Page(weather.pages, k), k + 1 < |weather.pages|));
    }

    method CreateRule(desired: DesiredRule, outcome: CreateOutcome) returns (answer: Option<(string, Rule)>)
      modifies this
      ensures rules == AfterCreate(old(rules), desired, outcome) && writes == old(writes) + [WriteCreate]
      ensures answer == if outcome.CreateAnswered? then Some((outcome.id, NewRule(desired, outcome.lifecycle))) else None
    {
      writes := writes + [WriteCreate];
      if !outcome.CreateRejected? {
        rules := rules[outcome.id := NewRule(desired, outcome.lifecycle)];
      }
      answer := if outcome.CreateAnswered? then Some((outcome.id, NewRule(desired, outcome.lifecycle))) else None;
    }

    method UpdateRule(id: string, desired: DesiredRule, outcome: WriteOutcome) returns (answer: Option<Rule>)
      requires id in rules
      modifies this
      ensures rules == AfterUpdate(old(rules), id, desired, outcome) && writes == old(writes) + [WriteUpdate(id)]
      ensures answer == if outcome.WriteAnswered? then Some(UpdatedRule(old(rules)[id], desired)) else None
    {
      writes := writes + [WriteUpdate(id)];
      answer := if outcome.WriteAnswered? then Some(UpdatedRule(rules[id], desired)) else None;
      if !outcome.WriteRejected? {
        rules := rules[id := UpdatedRule(rules[id], desired)];
      }
    }

    method DeleteRule(id: string, outcome: DeleteOutcome) returns (answer: Fault)
      modifies this
      ensures rules == AfterDelete(old(rules), id, outcome) && writes == old(writes) + [WriteDelete(id)]
      ensures answer == match outcome case DeleteAnswered => NoFault case Delete404 => Answers404 case _ => OtherFault
    {
      writes := writes + [WriteDelete(id)];
      if (outcome.DeleteAnswered? || outcome.DeleteLost?) && id in rules {
        rules := rules[id := rules[id].(lifecycle := Deleting)];
      }
      answer := match outcome case DeleteAnswered => NoFault case Delete404 => Answers404 case _ => OtherFault;
    }
  }

  class RuleManager {
    const client: EventsService
    const normalize: Normalizer

    constructor (client: EventsService, normalize: Normalizer)
      ensures this.client == client && this.normalize == normalize
    {
      this.client := client;
      this.normalize := normalize;
    }

    /** findRule: the page loop agrees with a linear search of the whole listing. */
    method FindRule(desired: DesiredRule, weather: Weather) returns (finding: Finding)
      ensures finding == Find(client.rules, desired, weather)
    {
      hide FirstWanted, Flatten, Wanted, StringValue, Prefix;
      if desired.ruleId != "" {
        var answer := client.GetRule(desired.ruleId, weather.byId);
        if answer.Got? {
          return FoundRule(desired.ruleId, answer.rule);
        }
        if answer.GetFailed? {
          return FindFailed;
        }
      }
      NothingYet(weather, desired);
      var k, more := 0, true;
      while more
        invariant k <= PageCount(weather.pages) && k <= weather.listFailsAt && (more <==> k < PageCount(weather.pages))
        invariant FirstWanted(Prefix(weather, k), desired) == None
        decreases PageCount(weather.pages) - k
      {
        var answer := client.ListRules(weather, k);
        if answer.None? {
          return FindFailed;
        }
        var items := answer.value.0;
        FirstOfNone(desired);
        NextPrefix(weather, k, desired);
        for i := 0 to |items|
          invariant FirstWanted(items[..i], desired) == None
        {
          FirstWantedAt(items, i, desired);
          if Wanted(items[i], desired) {
            WantedOnPage(weather, k, i, desired);
            var id := StringValue(items[i].id);
            var full := client.GetRule(id, weather.listed);
            return if full.Got? then FoundRule(id, full.rule) else FindFailed;
          }
        }
        assert items[..|items|] == items;
        k, more := k + 1, answer.value.1;
      }
      WholeListing(weather, k);
      return NoRule;
    }

    method EnsureRule(desired: DesiredRule, weather: Weather) returns (state: RuleState)
      modifies client
      ensures var effect := Ensure(old(client.rules), desired, weather, normalize);
              client.rules == effect.rules && state == effect.state && client.writes == old(client.writes) + effect.writes
    {
      hide Find, ValidDesired, RuleNeedsUpdate, NewRule, TrimSpace;
      if !ValidDesired(desired) {
        return RuleState("", false, true);
      }
      var finding := FindRule(desired, weather);
      if finding.FindFailed? {
        return RuleState("", false, true);
      }
      if finding.NoRule? {
        var created := client.CreateRule(desired, weather.create);
        if created.None? {
          return RuleState("", false, true);
        }
        return RuleState(TrimSpace(created.value.0), RuleReady(created.value.1), false);
      }
      FoundIsStored(client.rules, desired, weather);
      var FoundRule(id, rule) := finding;
      if RuleNeedsUpdate(rule, desired, normalize) {
        var updated := client.UpdateRule(id, desired, weather.update);
        if updated.None? {
          return RuleState(id, false, true);
        }
        UpdateKeepsReady(rule, desired);
        return RuleState(id, RuleReady(updated.value), false);
      }
      return RuleState(id, RuleReady(rule), false);
    }

    method DeleteRule(ruleId: string, weather: Weather) returns (state: RuleState)
      modifies client
      ensures var effect := Delete(old(client.rules), ruleId, weather);
              client.rules == effect.rules && state == effect.state && client.writes == old(client.writes) + effect.writes
    {
      hide TrimSpace;
      var id := TrimSpace(ruleId);
      if id == "" {
        return RuleState("", true, false);
      }
      var answer := client.DeleteRule(id, weather.delete);
      if answer == OtherFault {
        return RuleState(id, false, true);
      }
      return RuleState(id, true, false);
    }
  }

  lemma {:induction false} NothingYet(weather: Weather, desired: DesiredRule)
    ensures FirstWanted(Prefix(weather, 0), desired) == None
  {
  }

  lemma {:induction false} FirstOfNone(desired: DesiredRule)
    ensures FirstWanted([], desired) == None
  {
  }

  lemma {:induction false} WholeListing(weather: Weather, k: nat)
    requires PageCount(weather.pages) <= k <= weather.listFailsAt
    ensures Prefix(weather, k) == Listed(weather)
  {
  }

  lemma {:induction false} WantedOnPage(weather: Weather, k: nat, i: nat, desired: DesiredRule)
    requires k < weather.listFailsAt && i < |Page(weather.pages, k)|
    requires FirstWanted(Prefix(weather, k), desired) == None
    requires FirstWanted(Page(weather.pages, k)[..i + 1], desired).Some?
    ensures FirstWanted(Listed(weather), desired) == FirstWanted(Page(weather.pages, k)[..i + 1], desired)
  {
    hide FirstWanted, Prefix;
    var items := Page(weather.pages, k);
    assert items == items[..i + 1] + items[i + 1..];
    FirstWantedAppend(items[..i + 1], items[i + 1..], desired);
    NextPrefix(weather, k, desired);
    EarlyPrefix(weather, k + 1, desired);
  }

  /** A rule that is found is the one the service keeps under the id. */
  lemma {:induction false} FoundIsStored(rules: Rules, desired: DesiredRule, weather: Weather)
    ensures var finding := Find(rules, desired, weather);
            finding.FoundRule? ==> finding.id in rules && finding.rule == rules[finding.id]
  {
    hide FirstWanted, Listed;
  }

  lemma {:induction false} UpdateKeepsReady(rule: Rule, desired: DesiredRule)
    ensures RuleReady(UpdatedRule(rule, desired)) == RuleReady(rule)
  {
  }
}
