/** Which triggers a FunctionEvent reaches, in which order, and why no trigger that manages
    an OCI Events rule is among them. */
module TriggerRouting {
  import opened Invocations
  import opened Strings

  datatype Trigger = Trigger(
    name: string, isEnabled: Option<bool>, functionName: string, eventTypes: seq<string>,
    compartmentId: string, displayName: string, finalizer: bool)
  {
    predicate RuleEnabled() { isEnabled.None? || isEnabled.value }
  }

  const EVENT_TYPE_PREFIX := "functionevent."

  predicate IsFunctionEventType(eventType: string) { HasPrefix(TrimSpace(eventType), EVENT_TYPE_PREFIX) }

  /** The event types of this operator are those that start, after white space, with its prefix. */
  lemma {:induction false} PrefixedTypes(eventType: string)
    ensures IsFunctionEventType(eventType) <==>
              |TrimSpace(eventType)| >= 14 && TrimSpace(eventType)[..14] == "functionevent."
  {
    hide TrimSpace;
    assert EVENT_TYPE_PREFIX <= TrimSpace(eventType) <==> |TrimSpace(eventType)| >= 14 && TrimSpace(eventType)[..14] == EVENT_TYPE_PREFIX;
  }

  datatype TriggerMode = OCI | FunctionEventOnly | Mixed

  /** What the event types of a trigger say, in any order: blank ones say nothing. */
  ghost function ModeOf(eventTypes: seq<string>): TriggerMode {
    var hasFunctionEvent := exists t :: t in eventTypes && IsFunctionEventType(t);
    var hasOCIEvent := exists t :: t in eventTypes && !IsFunctionEventType(t) && TrimSpace(t) != "";
    if hasFunctionEvent && hasOCIEvent then Mixed
    else if hasFunctionEvent then FunctionEventOnly
    else OCI
  }

  /** The classification as the controller computes it: one scan with two flags. */
  function Scan(eventTypes: seq<string>, hasFunctionEvent: bool, hasOCIEvent: bool): TriggerMode {
    if eventTypes == [] then
      if hasFunctionEvent && hasOCIEvent then Mixed else if hasFunctionEvent then FunctionEventOnly else OCI
    else if IsFunctionEventType(eventTypes[0]) then Scan(eventTypes[1..], true, hasOCIEvent)
    else if TrimSpace(eventTypes[0]) != "" then Scan(eventTypes[1..], hasFunctionEvent, true)
    else Scan(eventTypes[1..], hasFunctionEvent, hasOCIEvent)
  }

  function Classify(trigger: Trigger): TriggerMode { Scan(trigger.eventTypes, false, false) }

  lemma {:induction false} ScanIsMode(eventTypes: seq<string>, f: bool, o: bool)
    ensures var hasFunctionEvent := f || exists t :: t in eventTypes && IsFunctionEventType(t);
            var hasOCIEvent := o || exists t :: t in eventTypes && !IsFunctionEventType(t) && TrimSpace(t) != "";
            Scan(eventTypes, f, o) ==
              if hasFunctionEvent && hasOCIEvent then Mixed else if hasFunctionEvent then FunctionEventOnly else OCI
  {
    if eventTypes != [] {
      var head, tail := eventTypes[0], eventTypes[1..];
      assert forall t :: t in eventTypes <==> t == head || t in tail;
      ScanIsMode(tail, f || IsFunctionEventType(head), o || (!IsFunctionEventType(head) && TrimSpace(head) != ""));
    }
  }

  /** The scan finds exactly what the event types say. */
  lemma {:induction false} ClassifyIsMode(trigger: Trigger)
    ensures Classify(trigger) == ModeOf(trigger.eventTypes)
  {
    ScanIsMode(trigger.eventTypes, false, false);
  }

  function NamesEvent(eventTypes: seq<string>, eventType: string): bool {
    exists i :: 0 <= i < |eventTypes| && TrimSpace(eventTypes[i]) == TrimSpace(eventType)
  }

  predicate MatchesEvent(trigger: Trigger, eventType: string) {
    Classify(trigger) == FunctionEventOnly && NamesEvent(trigger.eventTypes, eventType)
  }

  predicate Selected(trigger: Trigger, eventType: string) {
    trigger.RuleEnabled() && Classify(trigger) == FunctionEventOnly && MatchesEvent(trigger, eventType)
  }

  // ---------------------------------------------------------------- selecting and sorting

  function Select(listing: seq<Trigger>, eventType: string): seq<Trigger> {
    if listing == [] then []
    else Select(listing[..|listing| - 1], eventType)
         + (if Selected(listing[|listing| - 1], eventType) then [listing[|listing| - 1]] else [])
  }

  function Insert(trigger: Trigger, sorted: seq<Trigger>): seq<Trigger> {
    if sorted == [] || Less(trigger.name, sorted[0].name) then [trigger] + sorted
    else [sorted[0]] + Insert(trigger, sorted[1..])
  }

  /** sort.Slice by name.  The sort of the Go library is not stable; with distinct names its
      result is determined, as CanonicalMatching shows. */
  function SortByName(triggers: seq<Trigger>): seq<Trigger> {
    if triggers == [] then [] else Insert(triggers[0], SortByName(triggers[1..]))
  }

  function Matching(listing: seq<Trigger>, eventType: string): seq<Trigger> { SortByName(Select(listing, eventType)) }

  predicate UniqueNames(triggers: seq<Trigger>) {
    forall i, j :: 0 <= i < j < |triggers| ==> triggers[i].name != triggers[j].name
  }

  predicate StrictlySorted(triggers: seq<Trigger>) {
    forall i, j :: 0 <= i < j < |triggers| ==> Less(triggers[i].name, triggers[j].name)
  }

  lemma {:induction false} InsertSorted(trigger: Trigger, sorted: seq<Trigger>)
    requires StrictlySorted(sorted) && forall i :: 0 <= i < |sorted| ==> sorted[i].name != trigger.name
    ensures StrictlySorted(Insert(trigger, sorted))
    ensures multiset(Insert(trigger, sorted)) == multiset(sorted) + multiset{trigger}
  {
    if sorted == [] {
    } else if Less(trigger.name, sorted[0].name) {
      forall i | 0 <= i < |sorted| ensures Less(trigger.name, sorted[i].name) {
        if i > 0 {
          LessTransitive(trigger.name, sorted[0].name, sorted[i].name);
        }
      }
    } else {
      var rest := Insert(trigger, sorted[1..]);
      InsertSorted(trigger, sorted[1..]);
      LessTotal(trigger.name, sorted[0].name);
      assert sorted == [sorted[0]] + sorted[1..];
      forall i | 0 <= i < |rest| ensures Less(sorted[0].name, rest[i].name) {
        assert rest[i] in multiset(rest);
        assert rest[i] == trigger || rest[i] in sorted[1..];
      }
    }
  }

  lemma {:induction false} SortSorts(triggers: seq<Trigger>)
    requires UniqueNames(triggers)
    ensures StrictlySorted(SortByName(triggers))
    ensures multiset(SortByName(triggers)) == multiset(triggers)
  {
    if triggers != [] {
      var rest := SortByName(triggers[1..]);
      SortSorts(triggers[1..]);
      assert triggers == [triggers[0]] + triggers[1..];
      forall i | 0 <= i < |rest| ensures rest[i].name != triggers[0].name {
        assert rest[i] in multiset(rest);
        assert rest[i] in triggers[1..];
      }
      InsertSorted(triggers[0], rest);
    }
  }

  lemma {:induction false} SelectMultiset(listing: seq<Trigger>, eventType: string)
    ensures forall t :: multiset(Select(listing, eventType))[t] == if Selected(t, eventType) then multiset(listing)[t] else 0
  {
    if listing != [] {
      SelectMultiset(listing[..|listing| - 1], eventType);
      assert listing == listing[..|listing| - 1] + [listing[|listing| - 1]];
    }
  }

  lemma {:induction false} SelectUnique(listing: seq<Trigger>, eventType: string)
    requires UniqueNames(listing)
    ensures UniqueNames(Select(listing, eventType))
    ensures forall t :: t in Select(listing, eventType) ==> t in listing
  {
    if listing != [] {
      var n := |listing| - 1;
      SelectUnique(listing[..n], eventType);
      forall t | t in Select(listing[..n], eventType) ensures t.name != listing[n].name {
        assert t in listing[..n];
      }
    }
  }

  lemma {:induction false} SameLeast(a: seq<Trigger>, b: seq<Trigger>)
    requires StrictlySorted(a) && StrictlySorted(b) && a != [] && b != [] && a[0] in b && b[0] in a
    ensures a[0] == b[0]
  {
    if a[0] != b[0] {
      assert Less(a[0].name, b[0].name) && Less(b[0].name, a[0].name);
      LessTransitive(a[0].name, b[0].name, a[0].name);
      LessIrreflexive(a[0].name);
      assert false;
    }
  }

  lemma {:induction false} TailMultiset(a: seq<Trigger>)
    requires a != []
    ensures multiset(a[1..]) == multiset(a) - multiset{a[0]}
  {
    assert a == [a[0]] + a[1..];
  }

  /** A strictly sorted list is determined by its elements. */
  lemma {:induction false} SortedIsDetermined(a: seq<Trigger>, b: seq<Trigger>)
    requires StrictlySorted(a) && StrictlySorted(b) && multiset(a) == multiset(b)
    ensures a == b
  {
    hide Less;
    assert |a| == |multiset(a)| == |multiset(b)| == |b|;
    if a != [] {
      assert a[0] in multiset(b) && b[0] in multiset(a);
      SameLeast(a, b);
      TailMultiset(a);
      TailMultiset(b);
      SortedIsDetermined(a[1..], b[1..]);
      assert a == [a[0]] + a[1..] && b == [b[0]] + b[1..];
    }
  }

  /** The matches: strictly sorted, each trigger once, and exactly the enabled triggers all of
      whose event types are FunctionEvent types and one of which is the event's. */
  lemma {:induction false} MatchingIsExact(listing: seq<Trigger>, eventType: string)
    requires UniqueNames(listing)
    ensures StrictlySorted(Matching(listing, eventType))
    ensures forall t :: t in Matching(listing, eventType) <==>
              && t in listing && t.isEnabled != Some(false) && ModeOf(t.eventTypes) == FunctionEventOnly
              && exists i :: 0 <= i < |t.eventTypes| && TrimSpace(t.eventTypes[i]) == TrimSpace(eventType)
  {
    SelectMultiset(listing, eventType);
    SelectUnique(listing, eventType);
    SortSorts(Select(listing, eventType));
    forall t ensures t in Matching(listing, eventType) <==> t in listing && Selected(t, eventType) {
      assert t in Matching(listing, eventType) <==> t in multiset(Matching(listing, eventType));
      assert t in listing <==> t in multiset(listing);
    }
    forall t ensures Classify(t) == ModeOf(t.eventTypes) {
      ClassifyIsMode(t);
    }
  }

  /** The order of the listing does not matter. */
  lemma {:induction false} CanonicalMatching(listing: seq<Trigger>, permuted: seq<Trigger>, eventType: string)
    requires UniqueNames(listing) && UniqueNames(permuted) && multiset(listing) == multiset(permuted)
    ensures Matching(listing, eventType) == Matching(permuted, eventType)
  {
    hide Less, Select, SortByName, Selected, StrictlySorted;
    SelectMultiset(listing, eventType);
    SelectMultiset(permuted, eventType);
    SelectUnique(listing, eventType);
    SelectUnique(permuted, eventType);
    SortSorts(Select(listing, eventType));
    SortSorts(Select(permuted, eventType));
    assert multiset(Select(listing, eventType)) == multiset(Select(permuted, eventType));
    SortedIsDetermined(Matching(listing, eventType), Matching(permuted, eventType));
  }

  // ---------------------------------------------------------------- the other consumer

  /** What a pass of the trigger reconciler does with a trigger that is not being deleted. */
  datatype Route = ReportMixed | DropFinalizer | RouteReady | ReportMissingFields | AddFinalizer | ManageRule

  function RouteTrigger(trigger: Trigger): Route {
    match Classify(trigger)
    case Mixed => ReportMixed
    case FunctionEventOnly => if trigger.finalizer then DropFinalizer else RouteReady
    case OCI =>
      if TrimSpace(trigger.compartmentId) == "" || TrimSpace(trigger.displayName) == "" then ReportMissingFields
      else if !trigger.finalizer then AddFinalizer
      else ManageRule
  }

  /** The two consumers of triggers never share one: a trigger some event can reach neither
      manages a rule nor takes the finalizer that guards one, and a trigger with both kinds
      of event types, or with none, reaches nobody. */
  lemma {:induction false} RoutesAreDisjoint(trigger: Trigger, eventType: string)
    ensures MatchesEvent(trigger, eventType) ==> RouteTrigger(trigger) in {DropFinalizer, RouteReady}
    ensures RouteTrigger(trigger) in {ManageRule, AddFinalizer} ==>
              !MatchesEvent(trigger, eventType) && forall t :: t in trigger.eventTypes ==> !IsFunctionEventType(t)
    ensures RouteTrigger(trigger) == ReportMixed ==> !MatchesEvent(trigger, eventType)
  {
    ClassifyIsMode(trigger);
  }

  // ---------------------------------------------------------------- the loops

  /** classifyFunctionEventTrigger. */
  method ClassifyTrigger(trigger: Trigger) returns (mode: TriggerMode)
    ensures mode == ModeOf(trigger.eventTypes) == Classify(trigger)
  {
    var hasFunctionEvent, hasOCIEvent := false, false;
    for i := 0 to |trigger.eventTypes|
      invariant hasFunctionEvent <==> exists t :: t in trigger.eventTypes[..i] && IsFunctionEventType(t)
      invariant hasOCIEvent <==> exists t :: t in trigger.eventTypes[..i] && !IsFunctionEventType(t) && TrimSpace(t) != ""
    {
      assert trigger.eventTypes[..i + 1] == trigger.eventTypes[..i] + [trigger.eventTypes[i]];
      if IsFunctionEventType(trigger.eventTypes[i]) {
        hasFunctionEvent := true;
      } else if TrimSpace(trigger.eventTypes[i]) != "" {
        hasOCIEvent := true;
      }
    }
    assert trigger.eventTypes[..|trigger.eventTypes|] == trigger.eventTypes;
    ClassifyIsMode(trigger);
    mode := if hasFunctionEvent && hasOCIEvent then Mixed else if hasFunctionEvent then FunctionEventOnly else OCI;
  }

  /** matchingFunctionEventTriggers, after the listing has been read. */
  method MatchingTriggers(listing: seq<Trigger>, eventType: string) returns (matches: seq<Trigger>)
    requires UniqueNames(listing)
    ensures matches == Matching(listing, eventType)
    ensures StrictlySorted(matches)
  {
    matches := [];
    for i := 0 to |listing|
      invariant matches == Select(listing[..i], eventType)
    {
      assert listing[..i + 1][..i] == listing[..i];
      var mode := ClassifyTrigger(listing[i]);
      if listing[i].RuleEnabled() && mode == FunctionEventOnly && MatchesEvent(listing[i], eventType) {
        matches := matches + [listing[i]];
      }
    }
    assert listing[..|listing|] == listing;
    MatchingIsExact(listing, eventType);
    matches := SortByName(matches);
  }
}
