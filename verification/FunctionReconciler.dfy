/** The Function reconciler for managed Functions whose deletion policy is Delete: what a pass
    does to the finalizer, the status and the OCI functions. */
module FunctionReconciler {
  import opened Invocations
  import opened Strings
  import opened CloudAnswers
  import opened Applications
  import opened ManagedFunctions

  datatype FunctionConfig = FunctionConfig(
    region: string, compartmentId: string, applicationName: string, applicationOcid: string,
    subnetIds: seq<string>, nsgIds: Option<seq<string>>, displayName: string, image: string,
    memoryInMBs: int, memoryInMB: int, timeoutInSeconds: int, config: map<string, string>, environment: map<string, string>)

  /** usesRef: spec.applicationRef names a FunctionApplication. */
  datatype FunctionSpec = FunctionSpec(usesRef: bool, config: Option<FunctionConfig>)

  /** deleteFailed stands for the Error phase with one of the two deletion reasons. */
  datatype FunctionStatus = FunctionStatus(applicationId: string, functionId: string, functionOcid: string, deleteFailed: bool)

  const BLANK := FunctionStatus("", "", "", false)

  /** The referenced FunctionApplication. */
  datatype RefLookup = RefFailed | RefMissing | RefFound(deleting: bool, ready: bool, applicationId: string, region: string)

  datatype RefResolution = NoRef | RefError | WaitFor(applicationId: string) | UseRef(applicationId: string, region: string)

  predicate HasLegacyFields(config: FunctionConfig) {
    || TrimSpace(config.region) != "" || TrimSpace(config.compartmentId) != "" || TrimSpace(config.applicationName) != ""
    || TrimSpace(config.applicationOcid) != "" || |config.subnetIds| > 0 || config.nsgIds.Some?
  }

  /** resolveFunctionApplicationRef. */
  function ResolveRef(spec: FunctionSpec, lookup: RefLookup): RefResolution {
    if !spec.usesRef then NoRef
    else if spec.config.Some? && HasLegacyFields(spec.config.value) then WaitFor("")
    else
      match lookup
      case RefFailed => RefError
      case RefMissing => WaitFor("")
      case RefFound(deleting, ready, applicationId, region) =>
        if deleting || !ready || TrimSpace(applicationId) == "" then WaitFor(applicationId) else UseRef(applicationId, region)
  }

  /** desiredFunctionFromSpec, desiredFunctionInApplicationFromSpec: the part about the function. */
  function DesiredFn(config: FunctionConfig): DesiredFunction {
    DesiredFunction(
      TrimSpace(config.displayName), TrimSpace(config.image),
      if config.memoryInMBs > 0 then config.memoryInMBs else if config.memoryInMB > 0 then config.memoryInMB else 128,
      if config.timeoutInSeconds > 0 then config.timeoutInSeconds else 30,
      if config.config != map[] then config.config else config.environment)
  }

  predicate HasEmptyString(values: seq<string>) { exists i :: 0 <= i < |values| && TrimSpace(values[i]) == "" }

  predicate ValidLegacy(config: FunctionConfig) {
    TrimSpace(config.region) != "" && TrimSpace(config.compartmentId) != "" && TrimSpace(config.applicationName) != "" && |config.subnetIds| > 0
  }

  /** validateDesiredFunction, beyond ValidLegacy; memory and timeout are positive by default. */
  predicate ValidFunction(config: FunctionConfig) {
    && (config.nsgIds.Some? ==> !HasEmptyString(config.nsgIds.value))
    && TrimSpace(config.displayName) != "" && TrimSpace(config.image) != ""
  }

  /** validateDesiredFunctionInApplication. */
  predicate ValidInApplication(config: FunctionConfig, applicationId: string, region: string) {
    TrimSpace(region) != "" && TrimSpace(applicationId) != "" && TrimSpace(config.displayName) != "" && TrimSpace(config.image) != ""
  }

  // ---------------------------------------------------------------- a pass

  /** What a pass meets: the reference, whether a manager is configured, how ensuring the
      application ends, and the answers about functions. */
  datatype PassWeather = PassWeather(
    lookup: RefLookup, configured: bool, application: Applications.Answer, functions: FunctionWeather, deletion: DeleteWeather, backoff: bool)

  datatype FunctionWorld = FunctionWorld(functions: Functions, status: FunctionStatus, finalizer: bool)

  predicate ApplicationUsable(app: Application) { app.lifecycle == Unset || app.lifecycle == Active }

  /** The status a pass rebuilds around the id a call ends with. */
  function Rebuilt(applicationId: string, id: Option<string>): FunctionStatus {
    var functionId := if id.Some? then id.value else "";
    FunctionStatus(applicationId, functionId, functionId, false)
  }

  /** reconcileManagedFunctionWithApplicationRef. */
  function ManageWithRef(world: FunctionWorld, spec: FunctionSpec, applicationId: string, region: string, weather: PassWeather): FunctionWorld {
    if spec.config.None? || !weather.configured || !ValidInApplication(spec.config.value, applicationId, region)
    then world.(status := Rebuilt(applicationId, None))
    else
      var effect := EnsureFn(world.functions, DesiredFn(spec.config.value), TrimSpace(applicationId), weather.functions);
      FunctionWorld(effect.functions, Rebuilt(if effect.id.Some? then applicationId else TrimSpace(applicationId), effect.id), world.finalizer)
  }

  /** reconcileManagedFunctionStatus. */
  function ManageLegacy(world: FunctionWorld, spec: FunctionSpec, weather: PassWeather): FunctionWorld {
    if spec.config.None? || !ValidLegacy(spec.config.value) || !weather.configured || !ValidFunction(spec.config.value)
    then world.(status := BLANK)
    else if weather.application.Refused? then world.(status := Rebuilt(weather.application.id, None))
    else if !ApplicationUsable(weather.application.app) then world.(status := Rebuilt(weather.application.id, None))
    else
      var effect := EnsureFn(world.functions, DesiredFn(spec.config.value), weather.application.id, weather.functions);
      FunctionWorld(effect.functions, Rebuilt(weather.application.id, effect.id), world.finalizer)
  }

  /** A pass over a Function that is not being deleted: first the finalizer, alone. */
  function SyncPass(world: FunctionWorld, spec: FunctionSpec, weather: PassWeather): FunctionWorld {
    if !world.finalizer then world.(finalizer := true)
    else
      match ResolveRef(spec, weather.lookup)
      case RefError => world
      case WaitFor(applicationId) => world.(status := Rebuilt(applicationId, None))
      case UseRef(applicationId, region) => ManageWithRef(world, spec, applicationId, region, weather)
      case NoRef => ManageLegacy(world, spec, weather)
  }

  /** managedFunctionDeleteTarget. */
  function TargetOf(spec: FunctionSpec, status: FunctionStatus): DeleteTarget {
    var functionId := if TrimSpace(status.functionId) != "" then TrimSpace(status.functionId) else TrimSpace(status.functionOcid);
    if spec.config.None? then DeleteTarget("", "", "", TrimSpace(status.applicationId), "", functionId)
    else
      var config := spec.config.value;
      DeleteTarget(TrimSpace(config.region), TrimSpace(config.compartmentId), TrimSpace(config.applicationName),
                   TrimSpace(status.applicationId), TrimSpace(config.displayName), functionId)
  }

  /** A pass over a Function that is being deleted. */
  function DeletePass(world: FunctionWorld, spec: FunctionSpec, weather: PassWeather): FunctionWorld {
    if !world.finalizer || (world.status.deleteFailed && weather.backoff) then world
    else if !weather.configured then world.(status := world.status.(deleteFailed := true))
    else
      var effect := DeleteManaged(world.functions, TargetOf(spec, world.status), weather.deletion);
      if effect.done then FunctionWorld(effect.functions, world.status, false)
      else FunctionWorld(effect.functions, world.status.(deleteFailed := true), true)
  }

  // ---------------------------------------------------------------- the reconciler

  class Function {
    const spec: FunctionSpec
    var status: FunctionStatus
    var finalizer: bool

    constructor (spec: FunctionSpec)
      ensures this.spec == spec && status == BLANK && !finalizer
    {
      this.spec := spec;
      status := BLANK;
      finalizer := false;
    }

    method Reconcile(manager: FunctionManager, weather: PassWeather)
      modifies this, manager
      ensures FunctionWorld(manager.functions, status, finalizer) ==
                SyncPass(FunctionWorld(old(manager.functions), old(status), old(finalizer)), spec, weather)
    {
      hide TrimSpace, EnsureFn, HasLegacyFields;
      if !finalizer {
        finalizer := true;
        return;
      }
      var desired := BLANK;
      var resolution := ResolveRef(spec, weather.lookup);
      if resolution.RefError? {
        return;
      }
      if resolution.WaitFor? {
        status := desired.(applicationId := resolution.applicationId);
        return;
      }
      if resolution.UseRef? {
        desired := ReconcileWithApplicationRef(manager, resolution.applicationId, resolution.region, weather);
      } else {
        desired := ReconcileManagedStatus(manager, weather);
      }
      status := desired;
    }

    method ReconcileWithApplicationRef(manager: FunctionManager, applicationId: string, region: string, weather: PassWeather)
      returns (desired: FunctionStatus)
      requires finalizer
      modifies manager
      ensures FunctionWorld(manager.functions, desired, true) ==
                ManageWithRef(FunctionWorld(old(manager.functions), status, true), spec, applicationId, region, weather)
    {
      hide TrimSpace, EnsureFn;
      desired := BLANK.(applicationId := applicationId);
      if spec.config.None? || !weather.configured || !ValidInApplication(spec.config.value, applicationId, region) {
        return;
      }
      var id := manager.EnsureFunction(DesiredFn(spec.config.value), TrimSpace(applicationId), weather.functions);
      if id.None? {
        desired := desired.(applicationId := TrimSpace(applicationId));
      } else {
        desired := desired.(functionId := id.value, functionOcid := id.value);
      }
    }

    method ReconcileManagedStatus(manager: FunctionManager, weather: PassWeather) returns (desired: FunctionStatus)
      requires finalizer
      modifies manager
      ensures FunctionWorld(manager.functions, desired, true) ==
                ManageLegacy(FunctionWorld(old(manager.functions), status, true), spec, weather)
    {
      hide TrimSpace, EnsureFn, HasEmptyString;
      desired := BLANK;
      if spec.config.None? || !ValidLegacy(spec.config.value) || !weather.configured || !ValidFunction(spec.config.value) {
        return;
      }
      desired := desired.(applicationId := weather.application.id);
      if weather.application.Refused? || !ApplicationUsable(weather.application.app) {
        return;
      }
      var id := manager.EnsureFunction(DesiredFn(spec.config.value), weather.application.id, weather.functions);
      if id.Some? {
        desired := desired.(functionId := id.value, functionOcid := id.value);
      }
    }

    method ReconcileDelete(manager: FunctionManager, weather: PassWeather)
      modifies this, manager
      ensures FunctionWorld(manager.functions, status, finalizer) ==
                DeletePass(FunctionWorld(old(manager.functions), old(status), old(finalizer)), spec, weather)
    {
      hide TrimSpace, DeleteManaged;
      if !finalizer || (status.deleteFailed && weather.backoff) {
        return;
      }
      if !weather.configured {
        status := status.(deleteFailed := true);
        return;
      }
      var done := manager.DeleteManagedFunction(TargetOf(spec, status), weather.deletion);
      if !done {
        status := status.(deleteFailed := true);
        return;
      }
      finalizer := false;
    }
  }
}
