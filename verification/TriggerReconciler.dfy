/** The FunctionEventTrigger reconciler: what one pass does to the object and to the rules. */
module TriggerReconciler {
  import opened Invocations
  import opened Strings
  import opened TriggerRouting
  import opened EventRules

  datatype TriggerResource = TriggerResource(
    trigger: Trigger, description: string, namespace: string, uid: string, deletesRule: bool, ruleId: string)

  /** The Function and the condition of a trigger: not usable yet, or resolved. */
  datatype Readiness = NotReadyYet | Resolved(functionId: string, conditionJSON: string)

  /** desiredRuleFromTrigger. */
  function DesiredRuleFromTrigger(resource: TriggerResource, functionId: string, conditionJSON: string): DesiredRule {
    DesiredRule(TrimSpace(resource.trigger.compartmentId), TrimSpace(resource.trigger.displayName), TrimSpace(resource.description),
                resource.trigger.RuleEnabled(), conditionJSON, TrimSpace(functionId), TrimSpace(resource.ruleId),
                resource.trigger.name, resource.namespace, resource.uid)
  }

  datatype World = World(rules: Rules, resource: TriggerResource)

  function WithFinalizer(resource: TriggerResource, present: bool): TriggerResource {
    resource.(trigger := resource.trigger.(finalizer := present))
  }

  /** A pass over a trigger that is not being deleted. */
  function SyncPass(world: World, readiness: Readiness, weather: Weather, normalize: Normalizer, configured: bool): World {
    match RouteTrigger(world.resource.trigger)
    case DropFinalizer => world.(resource := WithFinalizer(world.resource, false))
    case RouteReady => world.(resource := world.resource.(ruleId := ""))
    case AddFinalizer => world.(resource := WithFinalizer(world.resource, true))
    case ManageRule =>
      if readiness.NotReadyYet? || !configured then world
      else
        var effect := Ensure(world.rules, DesiredRuleFromTrigger(world.resource, readiness.functionId, readiness.conditionJSON), weather, normalize);
        World(effect.rules, world.resource.(ruleId := effect.state.ruleId))
    case _ => world
  }

  /** A pass over a trigger that is being deleted. */
  function ReleasePass(world: World, weather: Weather, configured: bool): World {
    if !world.resource.trigger.finalizer then world
    else if world.resource.deletesRule && world.resource.ruleId != "" then
      if !configured then world
      else
        var effect := Delete(world.rules, world.resource.ruleId, weather);
        World(effect.rules, if effect.state.failed then world.resource else WithFinalizer(world.resource, false))
    else world.(resource := WithFinalizer(world.resource, false))
  }

  class FunctionEventTrigger {
    var resource: TriggerResource

    constructor (resource: TriggerResource)
      ensures this.resource == resource
    {
      this.resource := resource;
    }

    method Reconcile(manager: RuleManager, configured: bool, readiness: Readiness, weather: Weather)
      modifies this, manager.client
      ensures World(manager.client.rules, resource) ==
                SyncPass(World(old(manager.client.rules), old(resource)), readiness, weather, manager.normalize, configured)
    {
      hide Ensure, Classify, TrimSpace;
      var mode := ClassifyTrigger(resource.trigger);
      if mode == Mixed {
        return;
      }
      if mode == FunctionEventOnly {
        if resource.trigger.finalizer {
          resource := WithFinalizer(resource, false);
        } else {
          resource := resource.(ruleId := "");
        }
        return;
      }
      if TrimSpace(resource.trigger.compartmentId) == "" || TrimSpace(resource.trigger.displayName) == "" {
        return;
      }
      if !resource.trigger.finalizer {
        resource := WithFinalizer(resource, true);
        return;
      }
      if readiness.NotReadyYet? || !configured {
        return;
      }
      var desired := DesiredRuleFromTrigger(resource, readiness.functionId, readiness.conditionJSON);
      var state := manager.EnsureRule(desired, weather);
      resource := resource.(ruleId := state.ruleId);
    }

    method ReconcileDelete(manager: RuleManager, configured: bool, weather: Weather)
      modifies this, manager.client
      ensures World(manager.client.rules, resource) ==
                ReleasePass(World(old(manager.client.rules), old(resource)), weather, configured)
    {
      hide Delete;
      if !resource.trigger.finalizer {
        return;
      }
      if resource.deletesRule && resource.ruleId != "" {
        if !configured {
          return;
        }
        var state := manager.DeleteRule(resource.ruleId, weather);
        if state.failed {
          return;
        }
      }
      resource := WithFinalizer(resource, false);
    }
  }
}
