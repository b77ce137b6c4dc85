/** Ensuring an OCI Functions application: what is created, what is updated, what is left
    alone, and when a second call finds nothing to do.

    A nil field of an update means that the field is left unchanged.  The copies the manager
    sends turn empty lists and maps into nil. */
module Applications {
  import opened Invocations
  import opened Strings
  import opened CloudAnswers

  datatype Application = Application(
    compartment: string, displayName: string, subnetIds: seq<string>, nsgIds: seq<string>,
    config: map<string, string>, lineFormat: Option<string>, lifecycle: Lifecycle)

  type Apps = map<string, Application>

  datatype ApplicationSummary = ApplicationSummary(id: string, displayName: string, lifecycle: Lifecycle)

  datatype InvocationLogs = InvocationLogs(
    enabled: bool, logGroupId: string, logDisplayName: string, service: string, category: string, lineFormat: string)

  datatype Mode = Managed | Existing

  datatype DesiredApplication = DesiredApplication(
    mode: Mode, compartmentId: string, displayName: string, subnetIds: seq<string>,
    nsgIds: seq<string>, manageNsgs: bool, config: map<string, string>, manageConfig: bool,
    logs: Option<InvocationLogs>, manageLogging: bool, existingApplicationId: string)

  // ---------------------------------------------------------------- comparing lists

  predicate SameElements(a: seq<string>, b: seq<string>) { multiset(a) == multiset(b) }

  /** Reading an absent key of a Go map of numbers gives zero. */
  function SeenTimes(seen: map<string, nat>, v: string): nat { if v in seen then seen[v] else 0 }

  ghost predicate Counts(seen: map<string, nat>, elements: multiset<string>) {
    forall v :: SeenTimes(seen, v) == elements[v]
  }

  lemma {:induction false} CountNothing()
    ensures Counts(map[], multiset{})
  {
  }

  lemma {:induction false} CountOne(seen: map<string, nat>, elements: multiset<string>, v: string)
    requires Counts(seen, elements)
    ensures Counts(seen[v := SeenTimes(seen, v) + 1], elements + multiset{v})
    ensures SeenTimes(seen, v) > 0 ==> Counts(seen[v := SeenTimes(seen, v) - 1], elements - multiset{v})
    ensures SeenTimes(seen, v) == 0 <==> v !in elements
  {
  }

  lemma {:induction false} OneMore(a: seq<string>, i: nat)
    requires i < |a|
    ensures multiset(a[..i + 1]) == multiset(a[..i]) + multiset{a[i]}
  {
    assert a[..i + 1] == a[..i] + [a[i]];
  }

  /** Taking the next element of b from what is left of a. */
  lemma {:induction false} TakeOne(a: seq<string>, b: seq<string>, i: nat, left: multiset<string>)
    requires i < |b| && left + multiset(b[..i]) == multiset(a)
    ensures b[i] in left ==> left - multiset{b[i]} + multiset(b[..i + 1]) == multiset(a)
    ensures b[i] !in left ==> multiset(a) != multiset(b)
  {
    OneMore(b, i);
    assert b == b[..i + 1] + b[i + 1..];
    assert multiset(b)[b[i]] >= multiset(b[..i])[b[i]] + 1;
  }

  lemma {:induction false} NothingLeft(a: seq<string>, b: seq<string>, left: multiset<string>)
    requires left + multiset(b) == multiset(a) && |a| == |b|
    ensures multiset(a) == multiset(b)
  {
    assert |left| + |b| == |multiset(a)|;
    assert left == multiset{};
  }

  /** sameStringSet: it compares multisets, in spite of its name. */
  method SameStringSet(a: seq<string>, b: seq<string>) returns (same: bool)
    ensures same <==> SameElements(a, b)
  {
    hide Counts, SeenTimes;
    if |a| != |b| {
      assert |multiset(a)| != |multiset(b)|;
      return false;
    }
    var seen: map<string, nat> := map[];
    CountNothing();
    for i := 0 to |a|
      invariant Counts(seen, multiset(a[..i]))
    {
      OneMore(a, i);
      CountOne(seen, multiset(a[..i]), a[i]);
      seen := seen[a[i] := SeenTimes(seen, a[i]) + 1];
    }
    assert a[..|a|] == a;
    ghost var left := multiset(a);
    for i := 0 to |b|
      invariant left + multiset(b[..i]) == multiset(a) && Counts(seen, left)
    {
      TakeOne(a, b, i, left);
      CountOne(seen, left, b[i]);
      if SeenTimes(seen, b[i]) == 0 {
        return false;
      }
      seen := seen[b[i] := SeenTimes(seen, b[i]) - 1];
      left := left - multiset{b[i]};
    }
    assert b[..|b|] == b;
    NothingLeft(a, b, left);
    return true;
  }

  // ---------------------------------------------------------------- what an update sends

  function CopyStringSlice(values: seq<string>): Option<seq<string>> { if values == [] then None else Some(values) }

  function CopyStringMap(values: map<string, string>): Option<map<string, string>> { if values == map[] then None else Some(values) }

  predicate LogsEnabled(desired: DesiredApplication) { desired.logs.Some? && desired.logs.value.enabled }

  function LineFormat(desired: DesiredApplication): string {
    if desired.logs.None? || TrimSpace(desired.logs.value.lineFormat) == "" then "JSON" else TrimSpace(desired.logs.value.lineFormat)
  }

  function LoggingConfig(desired: DesiredApplication): Option<string> {
    if LogsEnabled(desired) then Some(LineFormat(desired)) else None
  }

  predicate SameLogging(app: Application, desired: DesiredApplication) {
    !LogsEnabled(desired) || app.lineFormat == Some(LineFormat(desired))
  }

  datatype UpdateDetails = UpdateDetails(
    nsgIds: Option<seq<string>>, config: Option<map<string, string>>, lineFormat: Option<string>)

  predicate NsgsDiffer(app: Application, desired: DesiredApplication) {
    desired.manageNsgs && !SameElements(app.nsgIds, desired.nsgIds)
  }

  predicate ConfigDiffers(app: Application, desired: DesiredApplication) { desired.manageConfig && app.config != desired.config }

  predicate LoggingDiffers(app: Application, desired: DesiredApplication) { desired.manageLogging && !SameLogging(app, desired) }

  predicate NeedsUpdate(app: Application, desired: DesiredApplication) {
    NsgsDiffer(app, desired) || ConfigDiffers(app, desired) || LoggingDiffers(app, desired)
  }

  function Details(app: Application, desired: DesiredApplication): UpdateDetails {
    UpdateDetails(
      if NsgsDiffer(app, desired) then CopyStringSlice(desired.nsgIds) else None,
      if ConfigDiffers(app, desired) then CopyStringMap(desired.config) else None,
      if LoggingDiffers(app, desired) then LoggingConfig(desired) else None)
  }

  function Updated(app: Application, details: UpdateDetails): Application {
    app.(nsgIds := if details.nsgIds.Some? then details.nsgIds.value else app.nsgIds,
         config := if details.config.Some? then details.config.value else app.config,
         lineFormat := if details.lineFormat.Some? then details.lineFormat else app.lineFormat)
  }

  /** What cannot be changed by an update. */
  predicate Immovable(app: Application, desired: DesiredApplication) {
    || (TrimSpace(desired.displayName) != "" && app.displayName != desired.displayName)
    || (|desired.subnetIds| > 0 && !SameElements(app.subnetIds, desired.subnetIds))
  }

  function NewApplication(desired: DesiredApplication, lifecycle: Lifecycle): Application {
    var nsgIds, config := CopyStringSlice(desired.nsgIds), CopyStringMap(desired.config);
    Application(desired.compartmentId, desired.displayName, desired.subnetIds,
                if nsgIds.Some? then nsgIds.value else [], if config.Some? then config.value else map[],
                LoggingConfig(desired), lifecycle)
  }

  // ---------------------------------------------------------------- one call

  datatype Weather = Weather(get: Fault, items: Option<seq<ApplicationSummary>>, create: CreateOutcome, update: WriteOutcome)

  datatype Write = WriteCreate | WriteUpdate(id: string, details: UpdateDetails)

  /** The application a call ends with, or a failure and the id that is known by then. */
  datatype Answer = Ensured(id: string, app: Application) | Refused(id: string)

  datatype Effect = Effect(apps: Apps, answer: Answer, writes: seq<Write>)

  predicate Candidate(item: ApplicationSummary, displayName: string) { item.displayName == displayName && Live(item.lifecycle) }

  function FirstCandidate(items: seq<ApplicationSummary>, displayName: string): Option<string> {
    if items == [] then None
    else if Candidate(items[0], displayName) then Some(items[0].id)
    else FirstCandidate(items[1..], displayName)
  }

  datatype Place = At(id: string) | Nowhere | ListFailed

  function Locate(desired: DesiredApplication, weather: Weather): Place {
    if TrimSpace(desired.existingApplicationId) != "" then At(TrimSpace(desired.existingApplicationId))
    else if weather.items.None? then ListFailed
    else
      match FirstCandidate(weather.items.value, desired.displayName)
      case Some(id) => At(id)
      case None => Nowhere
  }

  function Get(apps: Apps, id: string, fault: Fault): Option<Application> {
    if id == "" || fault != NoFault || id !in apps then None else Some(apps[id])
  }

  function AfterUpdate(apps: Apps, id: string, details: UpdateDetails, outcome: WriteOutcome): Apps {
    if outcome.WriteRejected? || id !in apps then apps else apps[id := Updated(apps[id], details)]
  }

  function AfterCreate(apps: Apps, desired: DesiredApplication, outcome: CreateOutcome): Apps {
    if outcome.CreateRejected? then apps else apps[outcome.id := NewApplication(desired, outcome.lifecycle)]
  }

  /** ensureApplicationMutableFields. */
  function EnsureMutable(apps: Apps, id: string, desired: DesiredApplication, weather: Weather): Effect
    requires id in apps
  {
    var app := apps[id];
    if Immovable(app, desired) then Effect(apps, Refused(id), [])
    else if !NeedsUpdate(app, desired) then Effect(apps, Ensured(id, app), [])
    else
      var details := Details(app, desired);
      Effect(AfterUpdate(apps, id, details, weather.update),
             if weather.update.WriteAnswered? then Ensured(id, Updated(app, details)) else Refused(id),
             [WriteUpdate(id, details)])
  }

  /** ensureApplication. */
  function Ensure(apps: Apps, desired: DesiredApplication, weather: Weather): Effect {
    match Locate(desired, weather)
    case ListFailed => Effect(apps, Refused(""), [])
    case At(id) =>
      var app := Get(apps, id, weather.get);
      if app.None? then Effect(apps, Refused(""), [])
      else if desired.mode.Existing? then Effect(apps, Ensured(id, app.value), [])
      else EnsureMutable(apps, id, desired, weather)
    case Nowhere =>
      if desired.mode.Existing? then Effect(apps, Refused(""), [])
      else
        Effect(AfterCreate(apps, desired, weather.create),
               if weather.create.CreateAnswered?
               then Ensured(weather.create.id, NewApplication(desired, weather.create.lifecycle)) else Refused(""),
               [WriteCreate])
  }

  class ApplicationManager {
    var apps: Apps
    var writes: seq<Write>

    constructor (apps: Apps)
      ensures this.apps == apps && writes == []
    {
      this.apps := apps;
      writes := [];
    }

    method UpdateApplication(id: string, details: UpdateDetails, outcome: WriteOutcome) returns (answer: Option<Application>)
      requires id in apps
      modifies this
      ensures apps == AfterUpdate(old(apps), id, details, outcome) && writes == old(writes) + [WriteUpdate(id, details)]
      ensures answer == if outcome.WriteAnswered? then Some(Updated(old(apps)[id], details)) else None
    {
      writes := writes + [WriteUpdate(id, details)];
      answer := if outcome.WriteAnswered? then Some(Updated(apps[id], details)) else None;
      if !outcome.WriteRejected? {
        apps := apps[id := Updated(apps[id], details)];
      }
    }

    method CreateApplication(desired: DesiredApplication, outcome: CreateOutcome) returns (answer: Option<Application>)
      modifies this
      ensures apps == AfterCreate(old(apps), desired, outcome) && writes == old(writes) + [WriteCreate]
      ensures answer == if outcome.CreateAnswered? then Some(NewApplication(desired, outcome.lifecycle)) else None
    {
      writes := writes + [WriteCreate];
      answer := if outcome.CreateAnswered? then Some(NewApplication(desired, outcome.lifecycle)) else None;
      if !outcome.CreateRejected? {
        apps := apps[outcome.id := NewApplication(desired, outcome.lifecycle)];
      }
    }

    method EnsureApplicationMutableFields(id: string, desired: DesiredApplication, weather: Weather) returns (answer: Answer)
      requires id in apps
      modifies this
      ensures var effect := EnsureMutable(old(apps), id, desired, weather);
              apps == effect.apps && answer == effect.answer && writes == old(writes) + effect.writes
    {
      hide TrimSpace, LineFormat, SameElements, Updated, CopyStringSlice, CopyStringMap, LoggingConfig;
      var app := apps[id];
      if TrimSpace(desired.displayName) != "" && app.displayName != desired.displayName {
        return Refused(id);
      }
      if |desired.subnetIds| > 0 {
        var same := SameStringSet(app.subnetIds, desired.subnetIds);
        if !same {
          return Refused(id);
        }
      }
      var details, needsUpdate := UpdateDetails(None, None, None), false;
      if desired.manageNsgs {
        var same := SameStringSet(app.nsgIds, desired.nsgIds);
        if !same {
          details, needsUpdate := details.(nsgIds := CopyStringSlice(desired.nsgIds)), true;
        }
      }
      if desired.manageConfig && app.config != desired.config {
        details, needsUpdate := details.(config := CopyStringMap(desired.config)), true;
      }
      if desired.manageLogging && !SameLogging(app, desired) {
        if LogsEnabled(desired) {
          details, needsUpdate := details.(lineFormat := LoggingConfig(desired)), true;
        }
      }
      if !needsUpdate {
        return Ensured(id, app);
      }
      assert details == Details(app, desired);
      var updated := UpdateApplication(id, details, weather.update);
      return if updated.Some? then Ensured(id, updated.value) else Refused(id);
    }

    method EnsureApplication(desired: DesiredApplication, weather: Weather) returns (answer: Answer)
      modifies this
      ensures var effect := Ensure(old(apps), desired, weather);
              apps == effect.apps && answer == effect.answer && writes == old(writes) + effect.writes
    {
      hide TrimSpace, EnsureMutable, NewApplication;
      var place := Locate(desired, weather);
      if TrimSpace(desired.existingApplicationId) != "" {
        answer := EnsureAt(TrimSpace(desired.existingApplicationId), desired, weather);
        return;
      }
      if weather.items.None? {
        return Refused("");
      }
      var items := weather.items.value;
      assert items[0..] == items;
      for i := 0 to |items|
        invariant apps == old(apps) && writes == old(writes)
        invariant FirstCandidate(items, desired.displayName) == FirstCandidate(items[i..], desired.displayName)
      {
        assert items[i..][1..] == items[i + 1..];
        if Candidate(items[i], desired.displayName) {
          answer := EnsureAt(items[i].id, desired, weather);
          return;
        }
      }
      if desired.mode.Existing? {
        return Refused("");
      }
      var created := CreateApplication(desired, weather.create);
      return if created.Some? then Ensured(weather.create.id, created.value) else Refused("");
    }

    /** The application is read by id; an Existing one is only resolved. */
    method EnsureAt(id: string, desired: DesiredApplication, weather: Weather) returns (answer: Answer)
      modifies this
      ensures Get(old(apps), id, weather.get).None? ==> apps == old(apps) && answer == Refused("") && writes == old(writes)
      ensures Get(old(apps), id, weather.get).Some? ==>
                var effect := if desired.mode.Existing? then Effect(old(apps), Ensured(id, old(apps)[id]), [])
                              else EnsureMutable(old(apps), id, desired, weather);
                apps == effect.apps && answer == effect.answer && writes == old(writes) + effect.writes
    {
      hide EnsureMutable;
      var app := Get(apps, id, weather.get);
      if app.None? {
        return Refused("");
      }
      if desired.mode.Existing? {
        return Ensured(id, app.value);
      }
      answer := EnsureApplicationMutableFields(id, desired, weather);
    }
  }

  // ---------------------------------------------------------------- what a call leaves alone

  /** A difference that no update can remove is reported, and nothing is written. */
  lemma {:induction false} MismatchWritesNothing(apps: Apps, desired: DesiredApplication, weather: Weather)
    requires Locate(desired, weather).At? && Get(apps, Locate(desired, weather).id, weather.get).Some? && desired.mode.Managed?
    ensures var id := Locate(desired, weather).id;
            Ensure(apps, desired, weather) == Effect(apps, Refused(id), []) <==>
              || (TrimSpace(desired.displayName) != "" && apps[id].displayName != desired.displayName)
              || (desired.subnetIds != [] && multiset(apps[id].subnetIds) != multiset(desired.subnetIds))
  {
    hide TrimSpace, Locate;
  }

  /** The part of an application a call may not touch. */
  predicate Untouched(before: Application, after: Application, desired: DesiredApplication) {
    && after == before.(nsgIds := after.nsgIds, config := after.config, lineFormat := after.lineFormat)
    && (!desired.manageNsgs ==> after.nsgIds == before.nsgIds)
    && (!desired.manageConfig ==> after.config == before.config)
    && (!desired.manageLogging || !LogsEnabled(desired) ==> after.lineFormat == before.lineFormat)
  }

  /** At most one write; other applications stay as they are, and of the one found only what
      is managed changes.  An application that is only to be resolved is never written. */
  lemma {:induction false} EnsureFrame(apps: Apps, desired: DesiredApplication, weather: Weather)
    requires !weather.create.CreateRejected? ==> weather.create.id !in apps
    ensures var effect := Ensure(apps, desired, weather);
            && |effect.writes| <= 1
            && (effect.writes == [] ==> effect.apps == apps)
            && (desired.mode.Existing? ==> effect.writes == [])
            && forall id :: id in apps ==>
                 && id in effect.apps && Untouched(apps[id], effect.apps[id], desired)
                 && (Locate(desired, weather) != At(id) ==> effect.apps[id] == apps[id])
  {
    hide TrimSpace, Locate, SameElements;
  }

  // ---------------------------------------------------------------- convergence

  /** Managed, wanted empty, and not empty: the update sends nil and leaves them alone. */
  predicate StuckNsgs(app: Application, desired: DesiredApplication) {
    desired.manageNsgs && desired.nsgIds == [] && app.nsgIds != []
  }

  predicate StuckConfig(app: Application, desired: DesiredApplication) {
    desired.manageConfig && desired.config == map[] && app.config != map[]
  }

  predicate Stuck(app: Application, desired: DesiredApplication) { StuckNsgs(app, desired) || StuckConfig(app, desired) }

  lemma {:induction false} EmptyElements(a: seq<string>)
    ensures SameElements(a, []) <==> a == []
  {
    if a != [] {
      assert a[0] in multiset(a);
    }
  }

  lemma {:induction false} UpdateSettles(app: Application, desired: DesiredApplication)
    ensures var updated := Updated(app, Details(app, desired));
            && (NeedsUpdate(updated, desired) <==> Stuck(app, desired))
            && (Stuck(updated, desired) <==> Stuck(app, desired))
            && (StuckNsgs(app, desired) ==> updated.nsgIds == app.nsgIds)
            && (StuckConfig(app, desired) ==> updated.config == app.config)
            && (Immovable(updated, desired) <==> Immovable(app, desired))
  {
    hide LineFormat, TrimSpace;
    EmptyElements(app.nsgIds);
    hide SameElements;
    assert SameElements(desired.nsgIds, desired.nsgIds) by {
      SameAsItself(desired.nsgIds);
    }
  }

  lemma {:induction false} SameAsItself(a: seq<string>)
    ensures SameElements(a, a)
  {
  }

  lemma {:induction false} NewIsSettled(desired: DesiredApplication, lifecycle: Lifecycle)
    ensures var app := NewApplication(desired, lifecycle);
            !NeedsUpdate(app, desired) && !Stuck(app, desired) && !Immovable(app, desired)
  {
  }

  lemma {:induction false} SettledIsNotStuck(app: Application, desired: DesiredApplication)
    ensures Stuck(app, desired) ==> NeedsUpdate(app, desired)
  {
    EmptyElements(app.nsgIds);
  }

  /** What success is supposed to mean. */
  predicate Meets(app: Application, desired: DesiredApplication) {
    && !Immovable(app, desired)
    && (desired.manageNsgs ==> SameElements(app.nsgIds, desired.nsgIds))
    && (desired.manageConfig ==> app.config == desired.config)
    && (desired.manageLogging && LogsEnabled(desired) ==> app.lineFormat == Some(LineFormat(desired)))
  }

  /** A successful call on a managed application leaves it as desired, unless it is stuck. */
  lemma {:induction false} EnsuredMeets(apps: Apps, desired: DesiredApplication, weather: Weather)
    requires desired.mode.Managed? && Ensure(apps, desired, weather).answer.Ensured?
    ensures var effect := Ensure(apps, desired, weather);
            && effect.answer.id in effect.apps && effect.apps[effect.answer.id] == effect.answer.app
            && (Meets(effect.answer.app, desired) <==> !Stuck(effect.answer.app, desired))
            && (effect.answer.id in apps && Locate(desired, weather).At? ==>
                  (Stuck(effect.answer.app, desired) <==> Stuck(apps[effect.answer.id], desired)))
  {
    hide TrimSpace, LineFormat, SameElements, NewApplication, Immovable, Stuck, NsgsDiffer, ConfigDiffers, LoggingDiffers, Details, Updated, Meets, NeedsUpdate;
    var effect := Ensure(apps, desired, weather);
    var app := effect.answer.app;
    MeetsIffSettled(app, desired);
    SettledIsNotStuck(app, desired);
    if Locate(desired, weather).Nowhere? {
      NewIsSettled(desired, weather.create.lifecycle);
    } else {
      SettledIsNotStuck(apps[effect.answer.id], desired);
      UpdateSettles(apps[effect.answer.id], desired);
    }
  }

  lemma {:induction false} MeetsIffSettled(app: Application, desired: DesiredApplication)
    ensures Meets(app, desired) <==> !Immovable(app, desired) && !NeedsUpdate(app, desired)
  {
    hide Immovable, SameElements, LineFormat;
  }

  /** A second call that finds the same application and can read it. */
  predicate FindsAgain(desired: DesiredApplication, weather: Weather, id: string) {
    id != "" && Locate(desired, weather) == At(id) && weather.get == NoFault
  }

  /** Application convergence.  After a successful call the next one writes nothing exactly if
      the application is not stuck. */
  lemma {:induction false} SecondEnsureWritesNothing(apps: Apps, desired: DesiredApplication, first: Weather, second: Weather)
    requires desired.mode.Managed? && Ensure(apps, desired, first).answer.Ensured?
    requires FindsAgain(desired, second, Ensure(apps, desired, first).answer.id)
    ensures var one := Ensure(apps, desired, first);
            var two := Ensure(one.apps, desired, second);
            && (two.writes == [] <==> !Stuck(one.answer.app, desired))
            && (two.writes == [] ==> two.apps == one.apps && two.answer == one.answer)
  {
    hide TrimSpace, Locate, NewApplication, Stuck, NeedsUpdate, Immovable, Details, Updated;
    EnsuredMeets(apps, desired, first);
    var one := Ensure(apps, desired, first);
    MeetsIffSettled(one.answer.app, desired);
    EnsuredIsMovable(apps, desired, first);
  }

  lemma {:induction false} EnsuredIsMovable(apps: Apps, desired: DesiredApplication, weather: Weather)
    requires desired.mode.Managed? && Ensure(apps, desired, weather).answer.Ensured?
    ensures !Immovable(Ensure(apps, desired, weather).answer.app, desired)
  {
    hide TrimSpace, Locate, NewApplication, NeedsUpdate, Immovable, Details, Updated;
    if Locate(desired, weather).Nowhere? {
      NewIsSettled(desired, weather.create.lifecycle);
    } else {
      UpdateSettles(apps[Ensure(apps, desired, weather).answer.id], desired);
    }
  }

  /** Repeated calls for one desired application. */
  function Repeat(apps: Apps, desired: DesiredApplication, weathers: seq<Weather>): Apps
    decreases |weathers|
  {
    if weathers == [] then apps else Repeat(Ensure(apps, desired, weathers[0]).apps, desired, weathers[1..])
  }

  /** A difference that no update can remove is never written over, however often. */
  lemma {:induction false} MismatchNeverWrites(apps: Apps, desired: DesiredApplication, weathers: seq<Weather>, id: string)
    requires id in apps && Immovable(apps[id], desired) && desired.mode.Managed?
    requires forall k :: 0 <= k < |weathers| ==> Locate(desired, weathers[k]) == At(id)
    ensures Repeat(apps, desired, weathers) == apps
    ensures forall weather :: Locate(desired, weather) == At(id) ==>
              Ensure(apps, desired, weather).writes == [] && Ensure(apps, desired, weather).answer.Refused?
    decreases |weathers|
  {
    hide TrimSpace, Locate, Immovable;
    if weathers != [] {
      assert Ensure(apps, desired, weathers[0]).apps == apps;
      MismatchNeverWrites(apps, desired, weathers[1..], id);
    }
  }

  /** Asking for no security groups never clears them: however often the application is
      ensured, the groups stay, the next call that can read the application writes again, and
      if it gets an answer it reports success. */
  lemma {:induction false} NsgsAreNeverCleared(apps: Apps, desired: DesiredApplication, weathers: seq<Weather>, id: string)
    requires id in apps && id != "" && StuckNsgs(apps[id], desired) && !Immovable(apps[id], desired) && desired.mode.Managed?
    requires forall k :: 0 <= k < |weathers| ==> Locate(desired, weathers[k]) == At(id)
    ensures id in Repeat(apps, desired, weathers)
    ensures Repeat(apps, desired, weathers)[id].nsgIds == apps[id].nsgIds
    ensures forall weather :: Locate(desired, weather) == At(id) && weather.get == NoFault ==>
              var effect := Ensure(Repeat(apps, desired, weathers), desired, weather);
              |effect.writes| == 1 && (weather.update == WriteAnswered ==> effect.answer.Ensured?)
    decreases |weathers|
  {
    hide TrimSpace, Locate, SameElements;
    if weathers == [] {
      hide NeedsUpdate, Immovable;
      SettledIsNotStuck(apps[id], desired);
    } else {
      hide NeedsUpdate, Immovable, Details, Updated;
      var next := Ensure(apps, desired, weathers[0]).apps;
      UpdateSettles(apps[id], desired);
      NsgsAreNeverCleared(next, desired, weathers[1..], id);
    }
  }

  // ---------------------------------------------------------------- which application, and what it is

  /** The listing of the compartment tells of every live application of the name, and of no
      other. */
  ghost predicate CompleteListing(apps: Apps, displayName: string, items: seq<ApplicationSummary>) {
    && (forall id :: id in apps && apps[id].displayName == displayName && Live(apps[id].lifecycle) ==>
          exists i :: 0 <= i < |items| && items[i] == ApplicationSummary(id, displayName, apps[id].lifecycle))
    && forall i :: 0 <= i < |items| && items[i].displayName == displayName && Live(items[i].lifecycle) ==>
         items[i].id in apps && apps[items[i].id].displayName == displayName && Live(apps[items[i].id].lifecycle)
  }

  lemma {:induction false} FirstCandidateIsFirst(items: seq<ApplicationSummary>, displayName: string)
    ensures match FirstCandidate(items, displayName)
            case Some(id) =>
              exists i :: 0 <= i < |items| && Candidate(items[i], displayName) && items[i].id == id
                          && forall k :: 0 <= k < i ==> !Candidate(items[k], displayName)
            case None => forall i :: 0 <= i < |items| ==> !Candidate(items[i], displayName)
  {
    hide Candidate;
    if items != [] && !Candidate(items[0], displayName) {
      FirstCandidateIsFirst(items[1..], displayName);
      if FirstCandidate(items, displayName).Some? {
        var i :| 0 <= i < |items| - 1 && Candidate(items[1..][i], displayName) && items[1..][i].id == FirstCandidate(items, displayName).value
                 && forall k :: 0 <= k < i ==> !Candidate(items[1..][k], displayName);
        assert items[i + 1] == items[1..][i] && forall k :: 0 < k < i + 1 ==> items[k] == items[1..][k - 1];
      } else {
        assert forall k :: 0 < k < |items| ==> items[k] == items[1..][k - 1];
      }
    }
  }

  /** Which application a call is about: the one asked for by id, else a live one of the name,
      else none exactly if there is none. */
  lemma {:induction false} LocatesTheApplication(apps: Apps, desired: DesiredApplication, weather: Weather)
    requires weather.items.Some? ==> CompleteListing(apps, desired.displayName, weather.items.value)
    ensures match Locate(desired, weather)
            case At(id) =>
              if TrimSpace(desired.existingApplicationId) != "" then id == TrimSpace(desired.existingApplicationId)
              else id in apps && apps[id].displayName == desired.displayName && Live(apps[id].lifecycle)
            case Nowhere =>
              && TrimSpace(desired.existingApplicationId) == ""
              && forall id :: id in apps && apps[id].displayName == desired.displayName ==> !Live(apps[id].lifecycle)
            case ListFailed => TrimSpace(desired.existingApplicationId) == "" && weather.items.None?
  {
    hide TrimSpace, FirstCandidate;
    if weather.items.Some? {
      FirstCandidateIsFirst(weather.items.value, desired.displayName);
    }
  }

  /** What a new application is: every field as asked for, logging only if it is enabled. */
  lemma {:induction false} CreatedIsAsAsked(apps: Apps, desired: DesiredApplication, weather: Weather)
    requires Ensure(apps, desired, weather).writes == [WriteCreate] && weather.create.CreateAnswered?
    ensures var effect := Ensure(apps, desired, weather);
            var id := weather.create.id;
            && desired.mode.Managed? && id in effect.apps && effect.answer == Ensured(id, effect.apps[id])
            && effect.apps[id].compartment == desired.compartmentId && effect.apps[id].displayName == desired.displayName
            && effect.apps[id].subnetIds == desired.subnetIds && effect.apps[id].nsgIds == desired.nsgIds
            && effect.apps[id].config == desired.config && effect.apps[id].lifecycle == weather.create.lifecycle
            && (effect.apps[id].lineFormat.Some? <==> desired.logs.Some? && desired.logs.value.enabled)
            && (effect.apps[id].lineFormat.Some? ==>
                  var asked := TrimSpace(desired.logs.value.lineFormat);
                  effect.apps[id].lineFormat.value == if asked == "" then "JSON" else asked)
  {
    hide TrimSpace, Locate, EnsureMutable;
    NoUpdateCreates(apps, desired, weather);
  }

  lemma {:induction false} NoUpdateCreates(apps: Apps, desired: DesiredApplication, weather: Weather)
    ensures Ensure(apps, desired, weather).writes == [WriteCreate] <==> Locate(desired, weather).Nowhere? && desired.mode.Managed?
  {
    hide TrimSpace, Locate, NeedsUpdate, Immovable, Details, Updated, NewApplication;
  }

  /** What an update sends of the three managed fields: each exactly if it is managed and
      differs, with the wanted value; an empty one is left out. */
  lemma {:induction false} UpdateIsAsAsked(apps: Apps, desired: DesiredApplication, weather: Weather, id: string)
    requires id in apps && Locate(desired, weather) == At(id) && desired.mode.Managed? && |Ensure(apps, desired, weather).writes| == 1
    ensures var app := apps[id];
            var write := Ensure(apps, desired, weather).writes[0];
            && write.WriteUpdate? && write.id == id
            && (write.details.nsgIds ==
                  if desired.manageNsgs && multiset(app.nsgIds) != multiset(desired.nsgIds) && desired.nsgIds != []
                  then Some(desired.nsgIds) else None)
            && (write.details.config ==
                  if desired.manageConfig && app.config != desired.config && desired.config != map[] then Some(desired.config) else None)
            && (write.details.lineFormat.Some? <==>
                  && desired.manageLogging && desired.logs.Some? && desired.logs.value.enabled
                  && app.lineFormat != Some(LineFormat(desired)))
            && (write.details.lineFormat.Some? ==> write.details.lineFormat.value == LineFormat(desired))
  {
    hide TrimSpace, Locate, LineFormat, Immovable, Updated;
  }

  /** When a call succeeds: exactly if it can locate and read the application or is to create one,
      no difference is immovable in a managed one, and its write, if it makes one, is answered.
      A failure still tells the id of an application that could be read. */
  lemma {:induction false} EnsureSucceeds(apps: Apps, desired: DesiredApplication, weather: Weather)
    ensures var effect := Ensure(apps, desired, weather);
            effect.answer.Ensured? <==>
              match Locate(desired, weather)
              case ListFailed => false
              case Nowhere => desired.mode.Managed? && weather.create.CreateAnswered?
              case At(id) =>
                && id != "" && weather.get == NoFault && id in apps
                && (desired.mode.Managed? ==> !Immovable(apps[id], desired) && (effect.writes != [] ==> weather.update.WriteAnswered?))
    ensures var answer := Ensure(apps, desired, weather).answer;
            answer.Refused? ==>
              answer.id == match Locate(desired, weather)
                           case At(id) => (if id != "" && weather.get == NoFault && id in apps then id else "")
                           case _ => ""
  {
    hide TrimSpace, Locate, NeedsUpdate, Immovable, Details, Updated, NewApplication;
  }
}
