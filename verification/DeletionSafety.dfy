/** Deletion safety: the finalizer of a managed Function goes only when no live OCI function of
    its application and name is left, whatever happened before.

    The claims are about persisted passes, complete listings, an application that stays, and
    an environment in which nobody else creates a function of that name there. */
module DeletionSafety {
  import opened Invocations
  import opened Strings
  import opened CloudAnswers
  import opened Applications
  import opened ManagedFunctions
  import opened FunctionReconciler

  /** The Function's application and the name of its OCI function. */
  datatype Home = Home(applicationId: string, displayName: string)

  ghost predicate HomeOf(home: Home, spec: FunctionSpec) {
    && home.applicationId != "" && TrimSpace(home.applicationId) == home.applicationId
    && (spec.config.Some? ==> home.displayName == TrimSpace(spec.config.value.displayName))
  }

  predicate LiveFn(functions: Functions, home: Home, id: string) {
    && id in functions && functions[id].application == home.applicationId
    && functions[id].displayName == home.displayName && Live(functions[id].lifecycle)
  }

  ghost predicate NoneLive(functions: Functions, home: Home) { forall id :: !LiveFn(functions, home, id) }

  ghost predicate OnlyLive(functions: Functions, home: Home, id: string) { forall a :: LiveFn(functions, home, a) ==> a == id }

  ghost predicate AtMostOneLive(functions: Functions, home: Home) {
    forall a, b :: LiveFn(functions, home, a) && LiveFn(functions, home, b) ==> a == b
  }

  ghost predicate CleanIds(functions: Functions) { forall id :: id in functions ==> id != "" && TrimSpace(id) == id }

  function RecordedId(status: FunctionStatus): string {
    if TrimSpace(status.functionId) != "" then TrimSpace(status.functionId) else TrimSpace(status.functionOcid)
  }

  // ---------------------------------------------------------------- what may be answered

  ghost predicate CompleteFunctions(functions: Functions, home: Home, items: seq<FunctionSummary>) {
    && (forall id :: LiveFn(functions, home, id) ==>
          exists i :: 0 <= i < |items| && items[i] == FunctionSummary(id, home.displayName, functions[id].lifecycle))
    && (forall i :: 0 <= i < |items| && Wanted(items[i], home.displayName) ==> LiveFn(functions, home, items[i].id))
    && (forall i, j :: 0 <= i < j < |items| ==> items[i].id != items[j].id)
  }

  ghost predicate CompleteApplications(present: bool, home: Home, name: string, items: seq<ApplicationSummary>) {
    && (present ==> exists i :: 0 <= i < |items| && Candidate(items[i], name))
    && (forall i :: 0 <= i < |items| && Candidate(items[i], name) ==> present && items[i].id == home.applicationId)
    && (forall i, j :: 0 <= i < j < |items| ==> items[i].id != items[j].id)
  }

  // ---------------------------------------------------------------- finding by name

  lemma {:induction false} FirstWantedIsExact(items: seq<FunctionSummary>, name: string)
    ensures match FirstWanted(items, name)
            case Some(id) => exists i :: 0 <= i < |items| && Wanted(items[i], name) && items[i].id == id
            case None => forall i :: 0 <= i < |items| ==> !Wanted(items[i], name)
  {
    hide Wanted;
    if items != [] && !Wanted(items[0], name) {
      FirstWantedIsExact(items[1..], name);
      if FirstWanted(items, name).Some? {
        var i :| 0 <= i < |items| - 1 && Wanted(items[1..][i], name) && items[1..][i].id == FirstWanted(items, name).value;
        assert items[i + 1] == items[1..][i];
      } else {
        forall i | 0 <= i < |items| ensures !Wanted(items[i], name) {
          if i > 0 {
            assert items[i] == items[1..][i - 1];
          }
        }
      }
    }
  }

  /** Of a complete listing the first match is the live function, and no match means none. */
  lemma {:induction false} FirstWantedIsLive(functions: Functions, home: Home, items: seq<FunctionSummary>)
    requires CompleteFunctions(functions, home, items)
    ensures match FirstWanted(items, home.displayName)
            case Some(id) => LiveFn(functions, home, id)
            case None => NoneLive(functions, home)
  {
    hide FirstWanted;
    FirstWantedIsExact(items, home.displayName);
  }

  predicate Distinct(ids: seq<string>) { forall i, j :: 0 <= i < j < |ids| ==> ids[i] != ids[j] }

  lemma {:induction false} FunctionIdsAreExact(items: seq<FunctionSummary>, name: string)
    requires forall i :: 0 <= i < |items| && Wanted(items[i], name) ==> items[i].id != "" && TrimSpace(items[i].id) == items[i].id
    requires forall i, j :: 0 <= i < j < |items| ==> items[i].id != items[j].id
    ensures Distinct(FunctionIds(items, name))
    ensures forall id :: id in FunctionIds(items, name) <==> exists i :: 0 <= i < |items| && Wanted(items[i], name) && items[i].id == id
  {
    hide Wanted, TrimSpace;
    if items != [] {
      var n := |items| - 1;
      FunctionIdsAreExact(items[..n], name);
      assert forall i :: 0 <= i < n ==> items[..n][i] == items[i];
      assert items[n].id !in FunctionIds(items[..n], name);
      forall id
        ensures id in FunctionIds(items, name) <==> exists i :: 0 <= i < |items| && Wanted(items[i], name) && items[i].id == id
      {
        if i :| 0 <= i < |items| && Wanted(items[i], name) && items[i].id == id {
          assert i < n ==> items[..n][i] == items[i];
        }
      }
    }
  }

  /** Without knowing how many there are: a name resolves to the only live function, to nothing if
      there is none, and stays unresolved exactly if there are several. */
  lemma {:induction false} ResolvesOnlyTheOnly(functions: Functions, home: Home, items: seq<FunctionSummary>)
    requires CompleteFunctions(functions, home, items) && CleanIds(functions)
    ensures match ResolveFunction(home.applicationId, home.displayName, Some(items))
            case Resolved(id) => LiveFn(functions, home, id) && OnlyLive(functions, home, id)
            case NothingThere => NoneLive(functions, home)
            case Unresolved => exists a, b :: LiveFn(functions, home, a) && LiveFn(functions, home, b) && a != b
  {
    hide TrimSpace;
    assert forall i :: 0 <= i < |items| && Wanted(items[i], home.displayName) ==> items[i].id != "" && TrimSpace(items[i].id) == items[i].id;
    FunctionIdsAreExact(items, home.displayName);
    var ids := FunctionIds(items, home.displayName);
    forall id ensures id in ids <==> LiveFn(functions, home, id) {
      if LiveFn(functions, home, id) {
        var i :| 0 <= i < |items| && items[i] == FunctionSummary(id, home.displayName, functions[id].lifecycle);
        assert Wanted(items[i], home.displayName);
      }
    }
    hide FunctionIds, Wanted, LiveFn, CompleteFunctions;
    if |ids| > 1 {
      TwoDiffer(ids);
    }
  }

  /** What a complete listing resolves to: the live function, or nothing. */
  lemma {:induction false} ResolutionIsExact(functions: Functions, home: Home, items: seq<FunctionSummary>)
    requires CompleteFunctions(functions, home, items) && AtMostOneLive(functions, home) && CleanIds(functions)
    ensures match ResolveFunction(home.applicationId, home.displayName, Some(items))
            case Resolved(id) => LiveFn(functions, home, id)
            case NothingThere => NoneLive(functions, home)
            case Unresolved => false
  {
    hide CleanIds;
    ResolvesOnlyTheOnly(functions, home, items);
  }

  /** A name that several live applications have resolves to nothing, however many functions they
      hold. */
  lemma {:induction false} SeveralApplicationsAreUnresolved(target: DeleteTarget, weather: DeleteWeather, i: nat, j: nat)
    requires TrimSpace(target.applicationId) == "" && weather.applications.Some? && i < j < |weather.applications.value|
    requires var items, name := weather.applications.value, TrimSpace(target.applicationName);
             && items[i].displayName == name == items[j].displayName && Live(items[i].lifecycle) && Live(items[j].lifecycle)
             && TrimSpace(items[i].id) != "" && TrimSpace(items[j].id) != ""
    ensures ResolveForDelete(target, weather) == Unresolved
  {
    var items, name := weather.applications.value, TrimSpace(target.applicationName);
    hide TrimSpace, ApplicationIds;
    TwoListed(items, name, i, j);
  }

  lemma {:induction false} TwoListed(items: seq<ApplicationSummary>, name: string, i: nat, j: nat)
    requires i < j < |items| && Candidate(items[i], name) && Candidate(items[j], name)
    requires TrimSpace(items[i].id) != "" && TrimSpace(items[j].id) != ""
    ensures |ApplicationIds(items, name)| >= 2
  {
    hide TrimSpace, Candidate;
    var n := |items| - 1;
    if j < n {
      TwoListed(items[..n], name, i, j);
    } else {
      OneListed(items[..n], name, i);
    }
  }

  lemma {:induction false} OneListed(items: seq<ApplicationSummary>, name: string, i: nat)
    requires i < |items| && Candidate(items[i], name) && TrimSpace(items[i].id) != ""
    ensures |ApplicationIds(items, name)| >= 1
  {
    hide TrimSpace, Candidate;
    var n := |items| - 1;
    if i < n {
      OneListed(items[..n], name, i);
    }
  }

  lemma {:induction false} TwoDiffer(ids: seq<string>)
    requires Distinct(ids) && |ids| > 1
    ensures ids[0] != ids[1] && ids[0] in ids && ids[1] in ids
  {
  }

  lemma {:induction false} ApplicationIdsAreExact(items: seq<ApplicationSummary>, name: string, id: string)
    requires id != "" && TrimSpace(id) == id
    requires forall i :: 0 <= i < |items| && Candidate(items[i], name) ==> items[i].id == id
    requires forall i, j :: 0 <= i < j < |items| ==> items[i].id != items[j].id
    ensures ApplicationIds(items, name) == if exists i :: 0 <= i < |items| && Candidate(items[i], name) then [id] else []
  {
    hide Candidate, TrimSpace;
    if items != [] {
      var n := |items| - 1;
      ApplicationIdsAreExact(items[..n], name, id);
      if i :| 0 <= i < n && Candidate(items[i], name) {
        assert items[..n][i] == items[i];
      }
    }
  }

  // ---------------------------------------------------------------- the invariant

  /** present says that the application exists by now. */
  ghost predicate Safe(world: FunctionWorld, home: Home, present: bool) {
    && CleanIds(world.functions) && AtMostOneLive(world.functions, home)
    && (RecordedId(world.status) != "" ==> OnlyLive(world.functions, home, RecordedId(world.status)))
    && TrimSpace(world.status.applicationId) in {"", home.applicationId}
    && (!present ==> NoneLive(world.functions, home))
  }

  /** Events in the life of a Function: passes, and what others do. */
  datatype Step =
    | Sync(weather: PassWeather, present: bool)
    | Delete(weather: PassWeather)
    | Outside(functions: Functions, present: bool)

  ghost predicate AllowedSync(world: FunctionWorld, home: Home, weather: PassWeather, present: bool) {
    && (weather.lookup.RefFound? ==>
          TrimSpace(weather.lookup.applicationId) in {"", home.applicationId} && (TrimSpace(weather.lookup.applicationId) != "" ==> present))
    && (weather.application.Ensured? ==> weather.application.id == home.applicationId && present)
    && weather.application.id in {"", home.applicationId}
    && (weather.functions.items.Some? ==> CompleteFunctions(world.functions, home, weather.functions.items.value))
    && (!weather.functions.create.CreateRejected? ==>
          var id := weather.functions.create.id; id !in world.functions && id != "" && TrimSpace(id) == id)
  }

  ghost predicate AllowedDelete(world: FunctionWorld, spec: FunctionSpec, home: Home, weather: DeleteWeather, present: bool) {
    && (weather.applications.Some? && spec.config.Some? ==>
          CompleteApplications(present, home, TrimSpace(spec.config.value.applicationName), weather.applications.value))
    && (weather.functions.Some? ==> CompleteFunctions(world.functions, home, weather.functions.value))
    && (weather.delete.Delete404? && DeletedFunction(TargetOf(spec, world.status), weather).Resolved? ==>
          !LiveFn(world.functions, home, DeletedFunction(TargetOf(spec, world.status), weather).id))
  }

  ghost predicate Allowed(world: FunctionWorld, spec: FunctionSpec, home: Home, present: bool, step: Step) {
    match step
    case Sync(weather, next) => (present ==> next) && AllowedSync(world, home, weather, next)
    case Delete(weather) => AllowedDelete(world, spec, home, weather.deletion, present)
    case Outside(functions, next) =>
      (present ==> next) && CleanIds(functions) && forall id :: LiveFn(functions, home, id) ==> LiveFn(world.functions, home, id)
  }

  function NextWorld(world: FunctionWorld, spec: FunctionSpec, step: Step): FunctionWorld {
    match step
    case Sync(weather, _) => SyncPass(world, spec, weather)
    case Delete(weather) => DeletePass(world, spec, weather)
    case Outside(functions, _) => world.(functions := functions)
  }

  function NextExists(present: bool, step: Step): bool {
    match step case Sync(_, next) => next case Delete(_) => present case Outside(_, next) => next
  }

  // ---------------------------------------------------------------- passes

  /** Ensuring the function keeps it the only live one, and ends with its id or with none. */
  lemma {:induction false} EnsureKeepsOne(functions: Functions, desired: DesiredFunction, home: Home, weather: FunctionWeather)
    requires CleanIds(functions) && AtMostOneLive(functions, home) && desired.displayName == home.displayName
    requires weather.items.Some? ==> CompleteFunctions(functions, home, weather.items.value)
    requires !weather.create.CreateRejected? ==>
               weather.create.id !in functions && weather.create.id != "" && TrimSpace(weather.create.id) == weather.create.id
    ensures var effect := EnsureFn(functions, desired, home.applicationId, weather);
            && CleanIds(effect.functions) && AtMostOneLive(effect.functions, home)
            && (effect.id.Some? ==> effect.id.value != "" && TrimSpace(effect.id.value) == effect.id.value
                                    && OnlyLive(effect.functions, home, effect.id.value))
  {
    hide TrimSpace, CompleteFunctions, FunctionNeedsUpdate, FirstWanted;
    if weather.items.Some? {
      FirstWantedIsLive(functions, home, weather.items.value);
      var effect := EnsureFn(functions, desired, home.applicationId, weather);
      match FirstWanted(weather.items.value, desired.displayName)
      case Some(id) =>
        assert forall a :: LiveFn(effect.functions, home, a) <==> LiveFn(functions, home, a);
      case None =>
        assert weather.create.CreateRejected?
               || forall a :: a != weather.create.id ==> (LiveFn(effect.functions, home, a) <==> LiveFn(functions, home, a));
    }
  }

  lemma {:induction false} RebuiltRecords(applicationId: string, id: Option<string>)
    ensures RecordedId(Rebuilt(applicationId, id)) == if id.Some? then TrimSpace(id.value) else ""
    ensures RecordedId(BLANK) == ""
  {
  }

  lemma {:induction false} TrimTwiceIs(home: Home, s: string)
    requires TrimSpace(s) in {"", home.applicationId}
    ensures TrimSpace(TrimSpace(s)) in {"", home.applicationId}
  {
    TrimTwice(s);
  }

  lemma {:induction false} SyncKeepsSafe(world: FunctionWorld, spec: FunctionSpec, home: Home, weather: PassWeather, present: bool)
    requires HomeOf(home, spec) && Safe(world, home, present) && AllowedSync(world, home, weather, present)
    ensures Safe(SyncPass(world, spec, weather), home, present)
  {
    hide TrimSpace, CompleteFunctions, EnsureFn, RecordedId, Rebuilt, HasLegacyFields, ValidLegacy, ValidFunction, ValidInApplication,
         LiveFn, BLANK;
    BlankStatus();
    if world.finalizer {
      match ResolveRef(spec, weather.lookup)
      case RefError =>
      case WaitFor(applicationId) =>
        RebuiltRecords(applicationId, None);
        RebuiltIs(applicationId, None);
      case UseRef(applicationId, region) =>
        RebuiltRecords(applicationId, None);
        TrimTwiceIs(home, applicationId);
        if spec.config.Some? {
          var desired := DesiredFn(spec.config.value);
          EnsureKeepsOne(world.functions, desired, home, weather.functions);
          var effect := EnsureFn(world.functions, desired, home.applicationId, weather.functions);
          RebuiltRecords(applicationId, effect.id);
          RebuiltRecords(TrimSpace(applicationId), effect.id);
          RebuiltIs(applicationId, effect.id);
          RebuiltIs(TrimSpace(applicationId), effect.id);
        }
        RebuiltIs(applicationId, None);
      case NoRef =>
        RebuiltRecords(weather.application.id, None);
        RebuiltIs(weather.application.id, None);
        if spec.config.Some? {
          var desired := DesiredFn(spec.config.value);
          EnsureKeepsOne(world.functions, desired, home, weather.functions);
          var effect := EnsureFn(world.functions, desired, home.applicationId, weather.functions);
          RebuiltRecords(weather.application.id, effect.id);
          RebuiltIs(weather.application.id, effect.id);
        }
    }
  }

  lemma {:induction false} RebuiltIs(applicationId: string, id: Option<string>)
    ensures Rebuilt(applicationId, id).applicationId == applicationId
  {
  }

  lemma {:induction false} BlankStatus()
    ensures TrimSpace("") == "" && RecordedId(BLANK) == "" && BLANK.applicationId == ""
  {
  }

  /** The heart of it: a deletion that reports success leaves no live function. */
  lemma {:induction false} DeletedMeansNoneLive(world: FunctionWorld, spec: FunctionSpec, home: Home, weather: DeleteWeather, present: bool)
    requires HomeOf(home, spec) && Safe(world, home, present) && AllowedDelete(world, spec, home, weather, present)
    ensures var effect := DeleteManaged(world.functions, TargetOf(spec, world.status), weather);
            && (effect.done ==> NoneLive(effect.functions, home))
            && CleanIds(effect.functions) && forall id :: LiveFn(effect.functions, home, id) ==> LiveFn(world.functions, home, id)
  {
    var target := TargetOf(spec, world.status);
    hide TrimSpace, DeletionRegion, CompleteFunctions, CompleteApplications, ResolveForDelete, TargetOf, RecordedId;
    DeletedIsOnly(world, spec, home, weather, present);
    var deleted := DeletedFunction(target, weather);
    if deleted.Resolved? {
      var after := AfterDeleteFn(world.functions, deleted.id, weather.delete);
      assert forall a :: a != deleted.id ==> (LiveFn(after, home, a) <==> LiveFn(world.functions, home, a));
    }
  }

  /** What a deletion is sent for is the only live function; if there is nothing to delete, none
      is live. */
  lemma {:induction false} DeletedIsOnly(world: FunctionWorld, spec: FunctionSpec, home: Home, weather: DeleteWeather, present: bool)
    requires HomeOf(home, spec) && Safe(world, home, present) && AllowedDelete(world, spec, home, weather, present)
    ensures match DeletedFunction(TargetOf(spec, world.status), weather)
            case Resolved(id) => OnlyLive(world.functions, home, id)
            case NothingThere => NoneLive(world.functions, home)
            case Unresolved => true
  {
    var target := TargetOf(spec, world.status);
    TargetIs(spec, world.status);
    hide TrimSpace, CompleteFunctions, ApplicationIds, FunctionIds, TargetOf, RecordedId, LiveFn, ResolveFunction;
    if TrimSpace(target.functionId) == "" && spec.config.Some? {
      if weather.functions.Some? {
        ResolutionIsExact(world.functions, home, weather.functions.value);
      }
      if weather.applications.Some? {
        ApplicationIdsAreExact(weather.applications.value, TrimSpace(spec.config.value.applicationName), home.applicationId);
      }
      UnlistedIsUnresolved(home.applicationId, home.displayName);
    }
  }

  lemma {:induction false} UnlistedIsUnresolved(applicationId: string, displayName: string)
    ensures ResolveFunction(applicationId, displayName, None).Unresolved?
  {
  }

  lemma {:induction false} TargetIs(spec: FunctionSpec, status: FunctionStatus)
    ensures var target := TargetOf(spec, status);
            && target.functionId == RecordedId(status) && TrimSpace(target.functionId) == target.functionId
            && target.applicationId == TrimSpace(status.applicationId) && TrimSpace(target.applicationId) == target.applicationId
            && match spec.config
               case None => TrimSpace(target.displayName) == ""
               case Some(config) =>
                 && target.displayName == TrimSpace(config.displayName) == TrimSpace(target.displayName)
                 && target.applicationName == TrimSpace(config.applicationName) == TrimSpace(target.applicationName)
                 && target.compartmentId == TrimSpace(config.compartmentId) == TrimSpace(target.compartmentId)
                 && target.region == TrimSpace(config.region) == TrimSpace(target.region)
  {
    hide TrimSpace;
    TrimTwice(status.functionId);
    TrimTwice(status.functionOcid);
    TrimTwice(status.applicationId);
    BlankStatus();
    if spec.config.Some? {
      var config := spec.config.value;
      TrimTwice(config.displayName);
      TrimTwice(config.applicationName);
      TrimTwice(config.compartmentId);
      TrimTwice(config.region);
    }
  }

  // ---------------------------------------------------------------- runs

  lemma {:induction false} StepKeepsSafe(world: FunctionWorld, spec: FunctionSpec, home: Home, present: bool, step: Step)
    requires HomeOf(home, spec) && Safe(world, home, present) && Allowed(world, spec, home, present, step)
    ensures Safe(NextWorld(world, spec, step), home, NextExists(present, step))
    ensures (world.finalizer || NoneLive(world.functions, home)) && !NextWorld(world, spec, step).finalizer ==>
              NoneLive(NextWorld(world, spec, step).functions, home)
  {
    hide TrimSpace, LiveFn, AllowedSync, AllowedDelete, DeleteManaged, HomeOf, RecordedId;
    match step
    case Sync(weather, next) =>
      SyncKeepsSafe(world, spec, home, weather, next);
      hide EnsureFn, ResolveRef, ManageWithRef, ManageLegacy;
      SyncKeepsFinalizer(world, spec, weather);
    case Delete(weather) => DeletedMeansNoneLive(world, spec, home, weather.deletion, present);
      SameRecorded(world.status);
    case Outside(functions, next) =>
  }

  lemma {:induction false} SyncKeepsFinalizer(world: FunctionWorld, spec: FunctionSpec, weather: PassWeather)
    ensures SyncPass(world, spec, weather).finalizer
  {
    hide EnsureFn, ResolveRef, ValidInApplication, ValidLegacy, ValidFunction, TrimSpace;
  }

  lemma {:induction false} SameRecorded(status: FunctionStatus)
    ensures RecordedId(status.(deleteFailed := true)) == RecordedId(status)
  {
  }

  function Run(world: FunctionWorld, spec: FunctionSpec, steps: seq<Step>): FunctionWorld
    decreases |steps|
  {
    if steps == [] then world else Run(NextWorld(world, spec, steps[0]), spec, steps[1..])
  }

  function RunExists(present: bool, steps: seq<Step>): bool
    decreases |steps|
  {
    if steps == [] then present else RunExists(NextExists(present, steps[0]), steps[1..])
  }

  ghost predicate AllowedRun(world: FunctionWorld, spec: FunctionSpec, home: Home, present: bool, steps: seq<Step>)
    decreases |steps|
  {
    steps != [] ==>
      Allowed(world, spec, home, present, steps[0])
      && AllowedRun(NextWorld(world, spec, steps[0]), spec, home, NextExists(present, steps[0]), steps[1..])
  }

  lemma {:induction false} RunKeepsSafe(world: FunctionWorld, spec: FunctionSpec, home: Home, present: bool, steps: seq<Step>)
    requires HomeOf(home, spec) && Safe(world, home, present) && AllowedRun(world, spec, home, present, steps)
    ensures Safe(Run(world, spec, steps), home, RunExists(present, steps))
    ensures (world.finalizer || NoneLive(world.functions, home)) && !Run(world, spec, steps).finalizer ==>
              NoneLive(Run(world, spec, steps).functions, home)
    decreases |steps|
  {
    hide Safe, HomeOf, Allowed, NextWorld, NextExists, LiveFn;
    if steps != [] {
      StepKeepsSafe(world, spec, home, present, steps[0]);
      RunKeepsSafe(NextWorld(world, spec, steps[0]), spec, home, NextExists(present, steps[0]), steps[1..]);
    }
  }

  /** Deletion safety.  However the run went that led to it, the pass that takes the finalizer
      away leaves no live function of the application and name. */
  lemma {:induction false} FinalizerGoesLast(
      world: FunctionWorld, spec: FunctionSpec, home: Home, present: bool, steps: seq<Step>, last: PassWeather)
    requires HomeOf(home, spec) && Safe(world, home, present) && AllowedRun(world, spec, home, present, steps)
    ensures var before := Run(world, spec, steps);
            && AtMostOneLive(before.functions, home)
            && (Allowed(before, spec, home, RunExists(present, steps), Delete(last))
                && before.finalizer && !DeletePass(before, spec, last).finalizer ==>
                  NoneLive(DeletePass(before, spec, last).functions, home))
  {
    hide DeletePass, AllowedRun, Allowed, LiveFn;
    RunKeepsSafe(world, spec, home, present, steps);
    var before := Run(world, spec, steps);
    if Allowed(before, spec, home, RunExists(present, steps), Delete(last)) {
      StepKeepsSafe(before, spec, home, RunExists(present, steps), Delete(last));
    }
  }

  /** A Function that starts without a live function never lacks its finalizer while one lives;
      so once the object is gone, none is left. */
  lemma {:induction false} GoneMeansNoneLive(functions: Functions, spec: FunctionSpec, home: Home, present: bool, steps: seq<Step>)
    requires HomeOf(home, spec) && CleanIds(functions) && NoneLive(functions, home)
    requires AllowedRun(FunctionWorld(functions, BLANK, false), spec, home, present, steps)
    ensures var after := Run(FunctionWorld(functions, BLANK, false), spec, steps);
            !after.finalizer ==> NoneLive(after.functions, home)
  {
    hide AllowedRun, Run, HomeOf, LiveFn;
    BlankStatus();
    RunKeepsSafe(FunctionWorld(functions, BLANK, false), spec, home, present, steps);
  }

  // ---------------------------------------------------------------- when a deletion gets through

  /** With every answer arriving, a deletion pass lets the object go exactly if a region is
      known and the function is: by id, or by name in an application known by id or by
      compartment and name. */
  lemma {:induction false} ReleasesExactly(world: FunctionWorld, spec: FunctionSpec, home: Home, weather: PassWeather, present: bool)
    requires HomeOf(home, spec) && Safe(world, home, present) && AllowedDelete(world, spec, home, weather.deletion, present)
    requires world.finalizer && weather.configured && !(world.status.deleteFailed && weather.backoff)
    requires weather.deletion.applications.Some? && weather.deletion.functions.Some? && weather.deletion.delete == DeleteAnswered
    ensures !DeletePass(world, spec, weather).finalizer <==>
              && TrimSpace(DeletionRegion(TargetOf(spec, world.status))) != ""
              && (|| RecordedId(world.status) != ""
                  || (&& spec.config.Some? && TrimSpace(spec.config.value.displayName) != ""
                      && (|| TrimSpace(world.status.applicationId) != ""
                          || (TrimSpace(spec.config.value.compartmentId) != "" && TrimSpace(spec.config.value.applicationName) != ""))))
  {
    TargetIs(spec, world.status);
    hide TrimSpace, CompleteFunctions, ApplicationIds, FunctionIds, TargetOf, RecordedId, LiveFn, ResolveFunction, DeletionRegion;
    if spec.config.Some? {
      ResolutionIsExact(world.functions, home, weather.deletion.functions.value);
      ApplicationIdsAreExact(weather.deletion.applications.value, TrimSpace(spec.config.value.applicationName), home.applicationId);
    }
  }

  /** A pass that finds the reference missing blanks both ids. */
  lemma {:induction false} MissingReferenceBlanks(world: FunctionWorld, spec: FunctionSpec, weather: PassWeather)
    requires spec.usesRef && world.finalizer && weather.lookup == RefMissing
    ensures SyncPass(world, spec, weather) == FunctionWorld(world.functions, BLANK, true)
  {
    hide HasLegacyFields;
  }

  /** A Function that refers to a FunctionApplication carries no application fields of its own.
      Once a pass has found the reference missing, its deletion fails for good: the object
      stays, and so do the OCI functions. */
  lemma {:induction false} MissingReferenceTraps(world: FunctionWorld, spec: FunctionSpec, weather: PassWeather, weathers: seq<PassWeather>)
    requires spec.usesRef && (spec.config.Some? ==> !HasLegacyFields(spec.config.value))
    requires world.finalizer && weather.lookup == RefMissing
    ensures var after := DeleteRun(SyncPass(world, spec, weather), spec, weathers);
            after.finalizer && after.functions == world.functions
  {
    hide SyncPass, DeleteRun, HasLegacyFields;
    MissingReferenceBlanks(world, spec, weather);
    LostReferenceKeepsObject(SyncPass(world, spec, weather), spec, weathers);
  }

  /** With both ids blank no deletion pass gets through. */
  lemma {:induction false} LostReferenceKeepsObject(world: FunctionWorld, spec: FunctionSpec, weathers: seq<PassWeather>)
    requires spec.usesRef && (spec.config.Some? ==> !HasLegacyFields(spec.config.value))
    requires world.finalizer && world.status == BLANK.(deleteFailed := world.status.deleteFailed)
    ensures var after := DeleteRun(world, spec, weathers);
            after.finalizer && after.functions == world.functions && after.status == BLANK.(deleteFailed := after.status.deleteFailed)
    decreases |weathers|
  {
    if weathers != [] {
      hide DeleteRun;
      DeleteRunUnfold(world, spec, weathers);
      BlankRegion(world, spec);
      hide TrimSpace, DeletionRegion, HasLegacyFields, TargetOf;
      LostReferenceKeepsObject(DeletePass(world, spec, weathers[0]), spec, weathers[1..]);
    }
  }

  function DeleteRun(world: FunctionWorld, spec: FunctionSpec, weathers: seq<PassWeather>): FunctionWorld
    decreases |weathers|
  {
    if weathers == [] then world else DeleteRun(DeletePass(world, spec, weathers[0]), spec, weathers[1..])
  }

  lemma {:induction false} DeleteRunUnfold(world: FunctionWorld, spec: FunctionSpec, weathers: seq<PassWeather>)
    requires weathers != []
    ensures DeleteRun(world, spec, weathers) == DeleteRun(DeletePass(world, spec, weathers[0]), spec, weathers[1..])
  {
  }

  lemma {:induction false} BlankRegion(world: FunctionWorld, spec: FunctionSpec)
    requires world.status == BLANK.(deleteFailed := world.status.deleteFailed)
    requires spec.config.Some? ==> !HasLegacyFields(spec.config.value)
    ensures TrimSpace(DeletionRegion(TargetOf(spec, world.status))) == ""
  {
    TargetIs(spec, world.status);
    BlankStatus();
    assert Split("", '.') == [""];
  }

  /** What a deletion that does not get through leaves: the object, its ids, and the mark that the
      next pass waits for. */
  lemma {:induction false} FailedDeletionIsMarked(world: FunctionWorld, spec: FunctionSpec, weather: PassWeather)
    requires world.finalizer && !(world.status.deleteFailed && weather.backoff)
    ensures var after := DeletePass(world, spec, weather);
            && (after.finalizer ==> after.status == world.status.(deleteFailed := true))
            && (!after.finalizer ==> after.status == world.status && weather.configured)
            && (!weather.configured ==> after.finalizer && after.functions == world.functions)
  {
    hide DeleteManaged, TargetOf;
  }

  // ---------------------------------------------------------------- regions

  /** The region stands fourth in an OCID of the kind. */
  lemma {:induction false} RegionStandsFourth(ocid: string, kind: string, realm: string, region: string, rest: string)
    requires '.' !in kind && '.' !in realm && '.' !in region
    requires ocid == "ocid1" + ['.'] + (kind + ['.'] + (realm + ['.'] + (region + ['.'] + rest))) && TrimSpace(ocid) == ocid
    ensures RegionOfOCID(ocid, kind) == region
  {
    hide TrimSpace;
    SplitOff("ocid1", '.', kind + ['.'] + (realm + ['.'] + (region + ['.'] + rest)));
    SplitOff(kind, '.', realm + ['.'] + (region + ['.'] + rest));
    SplitOff(realm, '.', region + ['.'] + rest);
    SplitOff(region, '.', rest);
  }

  lemma {:induction false} SplitOff(head: string, separator: char, rest: string)
    requires separator !in head
    ensures Split(head + [separator] + rest, separator) == [head] + Split(rest, separator)
  {
    var s := head + [separator] + rest;
    if head == "" {
      assert s[1..] == rest;
    } else {
      assert s[1..] == head[1..] + [separator] + rest && head[0] in head;
      SplitOff(head[1..], separator, rest);
      var parts := Split(s[1..], separator);
      assert parts[0] == head[1..] && parts[1..] == Split(rest, separator) && [head[0]] + head[1..] == head;
    }
  }

  /** The region of a deletion: the one that is given, else the function's, else the
      application's. */
  lemma {:induction false} DeletionRegionIs(target: DeleteTarget)
    ensures DeletionRegion(target) ==
              if TrimSpace(target.region) != "" then TrimSpace(target.region)
              else if TrimSpace(RegionOfOCID(target.functionId, "fnfunc")) != "" then RegionOfOCID(target.functionId, "fnfunc")
              else RegionOfOCID(target.applicationId, "fnapp")
  {
    TrimTwice(target.region);
    hide TrimSpace, RegionOfOCID;
    BlankStatus();
  }

  /** Exactly when a release is safe, for a status that need not be what the passes stored.
      When a deletion lets the object go, no live function is left if and only if no id was
      recorded, or the recorded one is the only live function there was. */
  lemma {:induction false} ReleaseSafeExactly(world: FunctionWorld, spec: FunctionSpec, home: Home, weather: PassWeather, present: bool)
    requires HomeOf(home, spec) && CleanIds(world.functions) && AtMostOneLive(world.functions, home)
    requires TrimSpace(world.status.applicationId) in {"", home.applicationId} && (!present ==> NoneLive(world.functions, home))
    requires AllowedDelete(world, spec, home, weather.deletion, present)
    requires world.finalizer && !DeletePass(world, spec, weather).finalizer
    ensures NoneLive(DeletePass(world, spec, weather).functions, home) <==>
              RecordedId(world.status) == "" || OnlyLive(world.functions, home, RecordedId(world.status))
  {
    var id := RecordedId(world.status);
    TargetIs(spec, world.status);
    hide TrimSpace, DeletionRegion, AllowedDelete, ResolveForDelete, TargetOf, RecordedId, HomeOf, CleanIds;
    if id == "" || OnlyLive(world.functions, home, id) {
      DeletedMeansNoneLive(world, spec, home, weather.deletion, present);
    } else {
      var other :| LiveFn(world.functions, home, other) && other != id;
      assert LiveFn(DeletePass(world, spec, weather).functions, home, other);
    }
  }

  /** What persisting the status is for.  A function was deleted by hand and created anew, but
      the pass that did so could not store the new id: the deletion of the old id is answered
      with 404, and the object goes while the new function lives. */
  lemma {:induction false} StaleStatusLeaks(spec: FunctionSpec, home: Home, stale: string, current: string, fn: Fn, weather: PassWeather)
    requires HomeOf(home, spec) && stale != current && TrimSpace(stale) == stale != ""
    requires fn.application == home.applicationId && fn.displayName == home.displayName && Live(fn.lifecycle)
    requires weather.configured && weather.deletion.delete == Delete404
    requires TrimSpace(DeletionRegion(TargetOf(spec, Rebuilt(home.applicationId, Some(stale))))) != ""
    ensures var world := FunctionWorld(map[current := fn], Rebuilt(home.applicationId, Some(stale)), true);
            var after := DeletePass(world, spec, weather);
            !after.finalizer && LiveFn(after.functions, home, current)
  {
    TargetIs(spec, Rebuilt(home.applicationId, Some(stale)));
    RebuiltRecords(home.applicationId, Some(stale));
    hide TrimSpace, DeletionRegion, TargetOf;
  }
}
