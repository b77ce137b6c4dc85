/** The manager of OCI Functions: ensuring one in an application, and deleting one.

    A function is found by its display name among the live functions of its application; a
    deletion without a known id first has to resolve one. */
module ManagedFunctions {
  import opened Invocations
  import opened Strings
  import opened CloudAnswers
  import opened Applications

  datatype Fn = Fn(
    application: string, displayName: string, image: string, memoryInMBs: int, timeoutInSeconds: int,
    config: map<string, string>, lifecycle: Lifecycle)

  type Functions = map<string, Fn>

  datatype FunctionSummary = FunctionSummary(id: string, displayName: string, lifecycle: Lifecycle)

  datatype DesiredFunction = DesiredFunction(
    displayName: string, image: string, memoryInMBs: int, timeoutInSeconds: int, config: map<string, string>)

  /** What identifies a function to delete; every field may be blank. */
  datatype DeleteTarget = DeleteTarget(
    region: string, compartmentId: string, applicationName: string, applicationId: string, displayName: string, functionId: string)

  // ---------------------------------------------------------------- ensuring

  datatype FunctionWeather = FunctionWeather(items: Option<seq<FunctionSummary>>, get: Fault, create: CreateOutcome, update: WriteOutcome)

  datatype FunctionWrite = CreateFn | UpdateFn(id: string) | DeleteFn(id: string)

  /** The id a call ends with, None for an error. */
  datatype FunctionEffect = FunctionEffect(functions: Functions, id: Option<string>, writes: seq<FunctionWrite>)

  predicate Wanted(item: FunctionSummary, displayName: string) { item.displayName == displayName && Live(item.lifecycle) }

  function FirstWanted(items: seq<FunctionSummary>, displayName: string): Option<string> {
    if items == [] then None
    else if Wanted(items[0], displayName) then Some(items[0].id)
    else FirstWanted(items[1..], displayName)
  }

  predicate FunctionNeedsUpdate(fn: Fn, desired: DesiredFunction) {
    || fn.image != desired.image || fn.memoryInMBs != desired.memoryInMBs
    || fn.timeoutInSeconds != desired.timeoutInSeconds || fn.config != desired.config
  }

  /** An empty configuration is sent as nil and leaves the one in place. */
  function UpdatedFunction(fn: Fn, desired: DesiredFunction): Fn {
    var config := CopyStringMap(desired.config);
    fn.(image := desired.image, memoryInMBs := desired.memoryInMBs, timeoutInSeconds := desired.timeoutInSeconds,
        config := if config.Some? then config.value else fn.config)
  }

  function NewFunction(desired: DesiredFunction, applicationId: string, lifecycle: Lifecycle): Fn {
    Fn(applicationId, desired.displayName, desired.image, desired.memoryInMBs, desired.timeoutInSeconds, desired.config, lifecycle)
  }

  function AfterCreateFn(functions: Functions, desired: DesiredFunction, applicationId: string, outcome: CreateOutcome): Functions {
    if outcome.CreateRejected? then functions
    else functions[outcome.id := NewFunction(desired, applicationId, outcome.lifecycle)]
  }

  function AfterUpdateFn(functions: Functions, id: string, desired: DesiredFunction, outcome: WriteOutcome): Functions {
    if outcome.WriteRejected? || id !in functions then functions else functions[id := UpdatedFunction(functions[id], desired)]
  }

  /** ensureFunction. */
  function EnsureFn(functions: Functions, desired: DesiredFunction, applicationId: string, weather: FunctionWeather): FunctionEffect {
    if weather.items.None? then FunctionEffect(functions, None, [])
    else
      match FirstWanted(weather.items.value, desired.displayName)
      case Some(id) =>
        if id == "" || weather.get != NoFault || id !in functions then FunctionEffect(functions, None, [])
        else if !FunctionNeedsUpdate(functions[id], desired) then FunctionEffect(functions, Some(id), [])
        else
          FunctionEffect(AfterUpdateFn(functions, id, desired, weather.update),
                         if weather.update.WriteAnswered? then Some(id) else None, [UpdateFn(id)])
      case None =>
        FunctionEffect(AfterCreateFn(functions, desired, applicationId, weather.create),
                       if weather.create.CreateAnswered? then Some(weather.create.id) else None, [CreateFn])
  }

  // ---------------------------------------------------------------- deleting

  datatype DeleteWeather = DeleteWeather(
    applications: Option<seq<ApplicationSummary>>, functions: Option<seq<FunctionSummary>>, delete: DeleteOutcome)

  /** The region an OCID of the given kind carries. */
  function RegionOfOCID(ocid: string, kind: string): string {
    var parts := Split(TrimSpace(ocid), '.');
    if |parts| >= 5 && parts[0] == "ocid1" && parts[1] == kind then parts[3] else ""
  }

  function EffectiveRegion(region: string, ocid: string, kind: string): string {
    if TrimSpace(region) != "" then TrimSpace(region) else RegionOfOCID(ocid, kind)
  }

  function DeletionRegion(target: DeleteTarget): string {
    var region := EffectiveRegion(target.region, target.functionId, "fnfunc");
    if TrimSpace(region) == "" then EffectiveRegion("", target.applicationId, "fnapp") else region
  }

  /** The ids of the live applications, or functions, with a name. */
  function ApplicationIds(items: seq<ApplicationSummary>, name: string): seq<string> {
    if items == [] then []
    else
      var n := |items| - 1;
      ApplicationIds(items[..n], name)
      + (if Candidate(items[n], name) && TrimSpace(items[n].id) != "" then [TrimSpace(items[n].id)] else [])
  }

  function FunctionIds(items: seq<FunctionSummary>, name: string): seq<string> {
    if items == [] then []
    else
      var n := |items| - 1;
      FunctionIds(items[..n], name)
      + (if Wanted(items[n], name) && TrimSpace(items[n].id) != "" then [TrimSpace(items[n].id)] else [])
  }

  /** What there is to delete: a function, nothing, or no way to tell. */
  datatype Resolution = Resolved(id: string) | NothingThere | Unresolved

  function ResolveFunction(applicationId: string, displayName: string, items: Option<seq<FunctionSummary>>): Resolution {
    if items.None? then Unresolved
    else
      var ids := FunctionIds(items.value, displayName);
      if |ids| == 0 then NothingThere else if |ids| == 1 then Resolved(ids[0]) else Unresolved
  }

  /** resolveFunctionForDelete. */
  function ResolveForDelete(target: DeleteTarget, weather: DeleteWeather): Resolution {
    var displayName := TrimSpace(target.displayName);
    if TrimSpace(target.applicationId) == "" && (TrimSpace(target.compartmentId) == "" || TrimSpace(target.applicationName) == "") then Unresolved
    else if displayName == "" then Unresolved
    else if TrimSpace(target.applicationId) != "" then ResolveFunction(TrimSpace(target.applicationId), displayName, weather.functions)
    else if weather.applications.None? then Unresolved
    else
      var ids := ApplicationIds(weather.applications.value, TrimSpace(target.applicationName));
      if |ids| == 0 then NothingThere
      else if |ids| == 1 then ResolveFunction(ids[0], displayName, weather.functions)
      else Unresolved
  }

  function AfterDeleteFn(functions: Functions, id: string, outcome: DeleteOutcome): Functions {
    if (outcome.DeleteAnswered? || outcome.DeleteLost?) && id in functions
    then functions[id := functions[id].(lifecycle := Deleting)] else functions
  }

  datatype DeleteEffect = DeleteEffect(functions: Functions, done: bool, writes: seq<FunctionWrite>)

  function DeleteById(functions: Functions, id: string, outcome: DeleteOutcome): DeleteEffect {
    DeleteEffect(AfterDeleteFn(functions, id, outcome), outcome.DeleteAnswered? || outcome.Delete404?, [DeleteFn(id)])
  }

  /** The function a deletion is sent for. */
  function DeletedFunction(target: DeleteTarget, weather: DeleteWeather): Resolution {
    if TrimSpace(target.functionId) != "" then Resolved(TrimSpace(target.functionId)) else ResolveForDelete(target, weather)
  }

  /** DeleteManagedFunction: done means a nil error. */
  function DeleteManaged(functions: Functions, target: DeleteTarget, weather: DeleteWeather): DeleteEffect {
    if TrimSpace(DeletionRegion(target)) == "" then DeleteEffect(functions, false, [])
    else
      match DeletedFunction(target, weather)
      case Unresolved => DeleteEffect(functions, false, [])
      case NothingThere => DeleteEffect(functions, true, [])
      case Resolved(id) => DeleteById(functions, id, weather.delete)
  }

  // ---------------------------------------------------------------- the manager

  class FunctionManager {
    var functions: Functions
    var writes: seq<FunctionWrite>

    constructor (functions: Functions)
      ensures this.functions == functions && writes == []
    {
      this.functions := functions;
      writes := [];
    }

    method EnsureFunction(desired: DesiredFunction, applicationId: string, weather: FunctionWeather) returns (id: Option<string>)
      modifies this
      ensures var effect := EnsureFn(old(functions), desired, applicationId, weather);
              functions == effect.functions && id == effect.id && writes == old(writes) + effect.writes
    {
      hide NewFunction, UpdatedFunction, FunctionNeedsUpdate;
      if weather.items.None? {
        return None;
      }
      var items := weather.items.value;
      assert items[0..] == items;
      for i := 0 to |items|
        invariant functions == old(functions) && writes == old(writes)
        invariant FirstWanted(items, desired.displayName) == FirstWanted(items[i..], desired.displayName)
      {
        assert items[i..][1..] == items[i + 1..];
        if Wanted(items[i], desired.displayName) {
          var found := items[i].id;
          if found == "" || weather.get != NoFault || found !in functions {
            return None;
          }
          if FunctionNeedsUpdate(functions[found], desired) {
            writes := writes + [UpdateFn(found)];
            functions := AfterUpdateFn(functions, found, desired, weather.update);
            return if weather.update.WriteAnswered? then Some(found) else None;
          }
          return Some(found);
        }
      }
      writes := writes + [CreateFn];
      functions := AfterCreateFn(functions, desired, applicationId, weather.create);
      return if weather.create.CreateAnswered? then Some(weather.create.id) else None;
    }

    /** The accumulating loops of the resolution. */
    method CollectApplications(items: seq<ApplicationSummary>, name: string) returns (ids: seq<string>)
      ensures ids == ApplicationIds(items, name)
    {
      hide TrimSpace;
      ids := [];
      for i := 0 to |items|
        invariant ids == ApplicationIds(items[..i], name)
      {
        assert items[..i + 1][..i] == items[..i];
        var id := TrimSpace(items[i].id);
        if Candidate(items[i], name) && id != "" {
          ids := ids + [id];
        }
      }
      assert items[..|items|] == items;
    }

    method CollectFunctions(items: seq<FunctionSummary>, name: string) returns (ids: seq<string>)
      ensures ids == FunctionIds(items, name)
    {
      hide TrimSpace;
      ids := [];
      for i := 0 to |items|
        invariant ids == FunctionIds(items[..i], name)
      {
        assert items[..i + 1][..i] == items[..i];
        var id := TrimSpace(items[i].id);
        if Wanted(items[i], name) && id != "" {
          ids := ids + [id];
        }
      }
      assert items[..|items|] == items;
    }

    method ResolveFunctionForDelete(target: DeleteTarget, weather: DeleteWeather) returns (resolution: Resolution)
      ensures resolution == ResolveForDelete(target, weather)
    {
      hide TrimSpace, ApplicationIds, FunctionIds;
      var applicationId := TrimSpace(target.applicationId);
      if applicationId == "" && (TrimSpace(target.compartmentId) == "" || TrimSpace(target.applicationName) == "") {
        return Unresolved;
      }
      if TrimSpace(target.displayName) == "" {
        return Unresolved;
      }
      if applicationId == "" {
        if weather.applications.None? {
          return Unresolved;
        }
        var applicationIds := CollectApplications(weather.applications.value, TrimSpace(target.applicationName));
        if |applicationIds| == 0 {
          return NothingThere;
        }
        if |applicationIds| > 1 {
          return Unresolved;
        }
        applicationId := applicationIds[0];
      }
      if weather.functions.None? {
        return Unresolved;
      }
      var functionIds := CollectFunctions(weather.functions.value, TrimSpace(target.displayName));
      resolution := if |functionIds| == 0 then NothingThere else if |functionIds| == 1 then Resolved(functionIds[0]) else Unresolved;
    }

    method DeleteManagedFunction(target: DeleteTarget, weather: DeleteWeather) returns (done: bool)
      modifies this
      ensures var effect := DeleteManaged(old(functions), target, weather);
              functions == effect.functions && done == effect.done && writes == old(writes) + effect.writes
    {
      hide TrimSpace, DeletionRegion, ResolveForDelete;
      if TrimSpace(DeletionRegion(target)) == "" {
        return false;
      }
      var functionId := TrimSpace(target.functionId);
      if functionId == "" {
        var resolution := ResolveFunctionForDelete(target, weather);
        if resolution.Unresolved? {
          return false;
        }
        if resolution.NothingThere? {
          return true;
        }
        functionId := resolution.id;
      }
      writes := writes + [DeleteFn(functionId)];
      functions := AfterDeleteFn(functions, functionId, weather.delete);
      return weather.delete.DeleteAnswered? || weather.delete.Delete404?;
    }

    /** The count DeleteApplication makes: the live functions of the first page, and one more
        if another page follows. */
    method CountActive(pages: seq<seq<FunctionSummary>>) returns (active: nat)
      ensures active == 0 <==> |pages| <= 1 && forall i :: 0 <= i < |Flatten(pages)| ==> !Live(Flatten(pages)[i].lifecycle)
    {
      var items := Page(pages, 0);
      active := if |pages| > 1 then 1 else 0;
      for i := 0 to |items|
        invariant active == 0 <==> |pages| <= 1 && forall k :: 0 <= k < i ==> !Live(items[k].lifecycle)
      {
        if Live(items[i].lifecycle) {
          active := active + 1;
        }
      }
      if |pages| == 1 {
        assert pages[..0] == [];
        assert Flatten(pages) == items;
      }
    }
  }

  // ---------------------------------------------------------------- convergence

  /** Wanted empty and not empty: an update leaves the configuration alone. */
  predicate StuckFunction(fn: Fn, desired: DesiredFunction) { desired.config == map[] && fn.config != map[] }

  /** After a call that ends with a function, the next one that finds it writes nothing
      exactly if the function's configuration is not stuck. */
  lemma {:induction false} SecondEnsureFn(
      functions: Functions, desired: DesiredFunction, applicationId: string, first: FunctionWeather, second: FunctionWeather)
    requires EnsureFn(functions, desired, applicationId, first).id.Some?
    requires var id := EnsureFn(functions, desired, applicationId, first).id.value;
             id != "" && second.items.Some? && FirstWanted(second.items.value, desired.displayName) == Some(id) && second.get == NoFault
    ensures var one := EnsureFn(functions, desired, applicationId, first);
            var two := EnsureFn(one.functions, desired, applicationId, second);
            && one.id.value in one.functions
            && (two.writes == [] <==> !StuckFunction(one.functions[one.id.value], desired))
            && (two.writes == [] ==> two.functions == one.functions && two.id == one.id)
            && (one.id.value in functions && one.writes != [CreateFn] ==>
                  (StuckFunction(one.functions[one.id.value], desired) <==> StuckFunction(functions[one.id.value], desired)))
  {
    hide FirstWanted;
  }
}
