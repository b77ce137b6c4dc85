/** What the OCI function of a managed Function is: where a pass creates it, under which name,
    with which contents, and when a pass manages it at all. */
module FunctionContents {
  import opened Invocations
  import opened Strings
  import opened CloudAnswers
  import opened Applications
  import opened ManagedFunctions
  import opened FunctionReconciler
  import opened DeletionSafety

  // ---------------------------------------------------------------- one call

  /** The function stands in the application, under the name, with the image and limits. */
  predicate Stands(fn: Fn, applicationId: string, desired: DesiredFunction) {
    && fn.application == applicationId && fn.displayName == desired.displayName
    && fn.image == desired.image && fn.memoryInMBs == desired.memoryInMBs && fn.timeoutInSeconds == desired.timeoutInSeconds
  }

  /** A call that ends with a function, over a complete listing: the function stands where it
      should, as it should, and is the only live one unless it was created dead.  Its
      configuration is the wanted one, except that an empty one does not clear another. */
  lemma {:induction false} EnsuredFunctionIs(functions: Functions, desired: DesiredFunction, applicationId: string, weather: FunctionWeather)
    requires weather.items.Some? && CompleteFunctions(functions, Home(applicationId, desired.displayName), weather.items.value)
    requires EnsureFn(functions, desired, applicationId, weather).id.Some?
    ensures var effect := EnsureFn(functions, desired, applicationId, weather);
            var id := effect.id.value;
            var created := effect.writes == [CreateFn];
            && id in effect.functions && Stands(effect.functions[id], applicationId, desired)
            && (Live(effect.functions[id].lifecycle) <==> !created || (weather.create.CreateAnswered? && Live(weather.create.lifecycle)))
            && (created <==> NoneLive(functions, Home(applicationId, desired.displayName)))
            && (!created ==> LiveFn(functions, Home(applicationId, desired.displayName), id))
            && (effect.functions[id].config == desired.config <==>
                  created || desired.config != map[] || functions[id].config == map[])
            && forall a :: a in functions && a != id ==> a in effect.functions && effect.functions[a] == functions[a]
  {
    hide FirstWanted, CompleteFunctions, LiveFn;
    var home := Home(applicationId, desired.displayName);
    FirstWantedIsLive(functions, home, weather.items.value);
    LiveStands(functions, home);
  }

  lemma {:induction false} LiveStands(functions: Functions, home: Home)
    ensures forall id :: LiveFn(functions, home, id) ==>
              && id in functions && functions[id].application == home.applicationId
              && functions[id].displayName == home.displayName && Live(functions[id].lifecycle)
  {
  }

  /** When a call ends with a function: exactly if it can list, can read what it finds, and its
      write, if it makes one, is answered. */
  lemma {:induction false} EnsureFnSucceeds(functions: Functions, desired: DesiredFunction, applicationId: string, weather: FunctionWeather)
    requires CleanIds(functions)
    requires weather.items.Some? ==> CompleteFunctions(functions, Home(applicationId, desired.displayName), weather.items.value)
    ensures var effect := EnsureFn(functions, desired, applicationId, weather);
            effect.id.Some? <==>
              && weather.items.Some?
              && (NoneLive(functions, Home(applicationId, desired.displayName)) || weather.get == NoFault)
              && (effect.writes == [CreateFn] ==> weather.create.CreateAnswered?)
              && (effect.writes != [] && effect.writes != [CreateFn] ==> weather.update.WriteAnswered?)
  {
    hide FirstWanted, CompleteFunctions, FunctionNeedsUpdate, LiveFn;
    var home := Home(applicationId, desired.displayName);
    if weather.items.Some? {
      FirstWantedIsLive(functions, home, weather.items.value);
      LiveStands(functions, home);
    }
  }

  // ---------------------------------------------------------------- when a pass manages

  predicate Named(config: FunctionConfig) { TrimSpace(config.displayName) != "" && TrimSpace(config.image) != "" }

  /** A Function that names its application itself. */
  predicate OwnApplication(spec: FunctionSpec, weather: PassWeather) {
    && !spec.usesRef && spec.config.Some?
    && var config := spec.config.value;
       && TrimSpace(config.region) != "" && TrimSpace(config.compartmentId) != "" && TrimSpace(config.applicationName) != ""
       && config.subnetIds != [] && Named(config)
       && (config.nsgIds.Some? ==> forall i :: 0 <= i < |config.nsgIds.value| ==> TrimSpace(config.nsgIds.value[i]) != "")
       && weather.application.Ensured? && weather.application.app.lifecycle in {Lifecycle.Unset, Active}
  }

  /** A Function that refers to a FunctionApplication, which is ready. */
  predicate ReferredApplication(spec: FunctionSpec, weather: PassWeather) {
    && spec.usesRef && spec.config.Some?
    && var config := spec.config.value;
       && TrimSpace(config.region) == "" && TrimSpace(config.compartmentId) == "" && TrimSpace(config.applicationName) == ""
       && TrimSpace(config.applicationOcid) == "" && config.subnetIds == [] && config.nsgIds.None? && Named(config)
       && weather.lookup.RefFound? && weather.lookup.ready && !weather.lookup.deleting
       && TrimSpace(weather.lookup.applicationId) != "" && TrimSpace(weather.lookup.region) != ""
  }

  predicate Manages(spec: FunctionSpec, weather: PassWeather) {
    weather.configured && (OwnApplication(spec, weather) || ReferredApplication(spec, weather))
  }

  function ApplicationOf(spec: FunctionSpec, weather: PassWeather): string
    requires Manages(spec, weather)
  {
    if spec.usesRef then TrimSpace(weather.lookup.applicationId) else weather.application.id
  }

  /** A pass that manages its function is one call for it. */
  lemma {:induction false} ManagingPass(world: FunctionWorld, spec: FunctionSpec, weather: PassWeather)
    requires world.finalizer && Manages(spec, weather)
    ensures var effect := EnsureFn(world.functions, DesiredFn(spec.config.value), ApplicationOf(spec, weather), weather.functions);
            var after := SyncPass(world, spec, weather);
            && after.functions == effect.functions
            && after.status.functionId == after.status.functionOcid == (if effect.id.Some? then effect.id.value else "")
            && TrimSpace(after.status.applicationId) == TrimSpace(ApplicationOf(spec, weather))
  {
    hide TrimSpace, EnsureFn, DesiredFn;
    if spec.usesRef {
      TrimTwice(weather.lookup.applicationId);
    }
  }

  /** Any other pass leaves the functions alone and records none. */
  lemma {:induction false} IdlePass(world: FunctionWorld, spec: FunctionSpec, weather: PassWeather)
    requires !world.finalizer || !Manages(spec, weather)
    ensures var after := SyncPass(world, spec, weather);
            && after.functions == world.functions && after.finalizer
            && (after.status == world.status || (after.status.functionId == "" && after.status.functionOcid == ""))
  {
    hide TrimSpace, EnsureFn, DesiredFn;
  }

  /** What such a pass stores of the application.  With an application of its own: nothing if the
      Function or the operator is not set up, else the id that ensuring it has ended with. */
  lemma {:induction false} OwnApplicationStored(world: FunctionWorld, spec: FunctionSpec, weather: PassWeather)
    requires world.finalizer && !spec.usesRef && !Manages(spec, weather)
    ensures var after := SyncPass(world, spec, weather).status;
            && after.functionId == after.functionOcid == "" && !after.deleteFailed
            && after.applicationId ==
                 (if weather.configured && spec.config.Some? && ValidLegacy(spec.config.value) && ValidFunction(spec.config.value)
                  then weather.application.id else "")
  {
    hide TrimSpace, EnsureFn, DesiredFn;
  }

  /** With a reference: what the referenced object says, and nothing if it is not there; only a
      reference that cannot be read leaves the status as it was. */
  lemma {:induction false} ReferenceStored(world: FunctionWorld, spec: FunctionSpec, weather: PassWeather)
    requires world.finalizer && spec.usesRef && !Manages(spec, weather)
    ensures var after := SyncPass(world, spec, weather).status;
            if spec.config.Some? && HasLegacyFields(spec.config.value) then after == BLANK
            else if weather.lookup.RefFailed? then after == world.status
            else after == BLANK.(applicationId := if weather.lookup.RefFound? then weather.lookup.applicationId else "")
  {
    hide TrimSpace, EnsureFn, DesiredFn;
  }

  /** What the OCI function of a Function must be, in the Function's own fields: memory and
      timeout have defaults, and the older names of two fields still count. */
  predicate AsSpecified(fn: Fn, config: FunctionConfig) {
    && fn.displayName == TrimSpace(config.displayName) && fn.image == TrimSpace(config.image)
    && fn.memoryInMBs == (if config.memoryInMBs > 0 then config.memoryInMBs else if config.memoryInMB > 0 then config.memoryInMB else 128)
    && fn.timeoutInSeconds == (if config.timeoutInSeconds > 0 then config.timeoutInSeconds else 30)
  }

  /** A Function gets its OCI function.  A pass that manages it, with a complete listing and
      answered calls, records a function that is live, stands in the application and is as the
      Function specifies; the configuration is the specified one unless that is empty. */
  lemma {:induction false} PassGivesFunction(world: FunctionWorld, spec: FunctionSpec, weather: PassWeather)
    requires world.finalizer && Manages(spec, weather) && CleanIds(world.functions)
    requires weather.functions.items.Some? && weather.functions.get == NoFault && weather.functions.update.WriteAnswered?
    requires weather.functions.create.CreateAnswered? && Live(weather.functions.create.lifecycle) && weather.functions.create.id != ""
    requires CompleteFunctions(world.functions, Home(ApplicationOf(spec, weather), TrimSpace(spec.config.value.displayName)), weather.functions.items.value)
    ensures var after := SyncPass(world, spec, weather);
            var id := after.status.functionId;
            && id != "" && id == after.status.functionOcid && id in after.functions
            && Live(after.functions[id].lifecycle) && after.functions[id].application == ApplicationOf(spec, weather)
            && AsSpecified(after.functions[id], spec.config.value)
            && (spec.config.value.config != map[] ==> after.functions[id].config == spec.config.value.config)
            && (spec.config.value.config == map[] && spec.config.value.environment != map[] ==>
                  after.functions[id].config == spec.config.value.environment)
  {
    var desired := DesiredFn(spec.config.value);
    assert desired.displayName == TrimSpace(spec.config.value.displayName);
    ManagingPass(world, spec, weather);
    hide TrimSpace, EnsureFn, CompleteFunctions, LiveFn, Manages, SyncPass;
    var applicationId := ApplicationOf(spec, weather);
    EnsureFnSucceeds(world.functions, desired, applicationId, weather.functions);
    EnsuredFunctionIs(world.functions, desired, applicationId, weather.functions);
    LiveStands(world.functions, Home(applicationId, desired.displayName));
    EndsWithId(world.functions, desired, applicationId, weather.functions);
  }

  lemma {:induction false} EndsWithId(functions: Functions, desired: DesiredFunction, applicationId: string, weather: FunctionWeather)
    requires weather.create.CreateAnswered? && weather.create.id != ""
    ensures EnsureFn(functions, desired, applicationId, weather).id != Some("")
  {
    hide FirstWanted, FunctionNeedsUpdate;
  }
}
