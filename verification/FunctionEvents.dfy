/** The FunctionEvent router as values: one reconcile pass is a function of the persisted
    status, the call log and what the pass reads. */
module FunctionEvents {
  import opened Invocations
  import opened TriggerRouting

  datatype EventPhase = NoPhase | PhasePending | PhaseProcessing | PhaseProcessed | PhaseFailed

  datatype InvocationPhase = Unset | Pending | Succeeded | Failed

  datatype TriggerInvocation = TriggerInvocation(
    triggerName: string, functionName: string, phase: InvocationPhase, attempts: int, attempted: bool)

  datatype Condition = Condition(status: bool, reason: string)

  datatype EventStatus = EventStatus(
    observedGeneration: int, phase: EventPhase, matchedTriggers: seq<string>,
    invocations: seq<TriggerInvocation>, processed: Option<Condition>, failed: Option<Condition>)

  const RETRY_LIMIT := 3

  predicate IsTerminal(status: EventStatus) { status.phase == PhaseProcessed || status.phase == PhaseFailed }

  // ---------------------------------------------------------------- status carry-over

  /** The persisted invocations by trigger name; the last one of a name wins. */
  function ByName(invocations: seq<TriggerInvocation>): (m: map<string, TriggerInvocation>)
    ensures forall n :: n in m ==> m[n].triggerName == n
  {
    if invocations == [] then map[]
    else
      var last := invocations[|invocations| - 1];
      ByName(invocations[..|invocations| - 1])[last.triggerName := last]
  }

  function CarryOver(existing: map<string, TriggerInvocation>, trigger: Trigger): TriggerInvocation {
    var found := if trigger.name in existing then existing[trigger.name] else TriggerInvocation("", "", Unset, 0, false);
    var named := if found.triggerName == "" then found.(triggerName := trigger.name, phase := Pending) else found;
    var referring := named.(functionName := trigger.functionName);
    if referring.phase == Unset then referring.(phase := Pending) else referring
  }

  function EnsureInvocations(invocations: seq<TriggerInvocation>, triggers: seq<Trigger>): seq<TriggerInvocation> {
    var existing := ByName(invocations);
    seq(|triggers|, i requires 0 <= i < |triggers| => CarryOver(existing, triggers[i]))
  }

  /** The position of every trigger name; the last one of a name wins. */
  function Indexes(invocations: seq<TriggerInvocation>): map<string, nat> {
    if invocations == [] then map[]
    else
      var n := |invocations| - 1;
      Indexes(invocations[..n])[invocations[n].triggerName := n]
  }

  function Names(triggers: seq<Trigger>): seq<string> {
    seq(|triggers|, i requires 0 <= i < |triggers| => triggers[i].name)
  }

  // ---------------------------------------------------------------- invoking

  /** What a pass holds fixed while it walks the triggers.  Each trigger's Function is read
      anew, so the lookups are given by trigger name. */
  datatype Round = Round(invoke: Invoker, body: Bytes, lookups: string -> FunctionLookup)

  /** Why a walk ends: at the end of the list, because the Function of a trigger could not be
      read, or because the invoker turned out not to be implemented. */
  datatype End = Completed | LookupError | InvokerNotImplemented

  datatype Visit = Visit(invocation: TriggerInvocation, log: Log, requeue: bool, end: End)

  predicate Exhausted(invocation: TriggerInvocation) {
    invocation.phase == Succeeded || (invocation.phase == Failed && invocation.attempts >= RETRY_LIMIT)
  }

  function VisitTrigger(round: Round, index: nat, trigger: Trigger, invocation: TriggerInvocation, log: Log): Visit {
    if Exhausted(invocation) then Visit(invocation, log, false, Completed)
    else
      var lookup := round.lookups(trigger.name);
      if lookup.LookupFailed? then Visit(invocation, log, false, LookupError)
      else if lookup.NotFound? || !ReadyForInvocation(lookup) then Visit(invocation.(phase := Pending), log, true, Completed)
      else
        var request := Request(lookup.target, index, round.body, trigger.name);
        var answer := round.invoke(log, request);
        var log' := log + [Call(request, answer)];
        if answer.AnswerNotImplemented? then Visit(invocation, log', false, InvokerNotImplemented)
        else
          var counted := invocation.(attempts := invocation.attempts + 1, attempted := true);
          if answer.AnswerOk? then Visit(counted.(phase := Succeeded), log', false, Completed)
          else if counted.attempts >= RETRY_LIMIT then Visit(counted.(phase := Failed), log', false, Completed)
          else Visit(counted.(phase := Pending), log', true, Completed)
  }

  datatype Walk = Walk(invocations: seq<TriggerInvocation>, log: Log, requeue: bool, end: End)

  /** The loop over the matched triggers from position i on.  An early end returns no requeue. */
  function WalkTriggers(round: Round, triggers: seq<Trigger>, i: nat, invocations: seq<TriggerInvocation>, log: Log, requeue: bool): Walk
    requires |invocations| == |triggers|
    decreases |triggers| - i
  {
    if i >= |triggers| then Walk(invocations, log, requeue, Completed)
    else
      var visit := VisitTrigger(round, i, triggers[i], invocations[i], log);
      var updated := invocations[i := visit.invocation];
      if visit.end != Completed then Walk(updated, visit.log, false, visit.end)
      else WalkTriggers(round, triggers, i + 1, updated, visit.log, requeue || visit.requeue)
  }

  // ---------------------------------------------------------------- marking

  function MarkProcessed(status: EventStatus, reason: string): EventStatus {
    status.(phase := PhaseProcessed, processed := Some(Condition(true, reason)), failed := Some(Condition(false, "NoFailedInvocations")))
  }

  function MarkProcessing(status: EventStatus, reason: string): EventStatus {
    status.(phase := PhaseProcessing, processed := Some(Condition(false, reason)), failed := Some(Condition(false, reason)))
  }

  function MarkFailed(status: EventStatus, reason: string): EventStatus {
    status.(phase := PhaseFailed, processed := Some(Condition(false, reason)), failed := Some(Condition(true, reason)))
  }

  function CountPhase(invocations: seq<TriggerInvocation>, phase: InvocationPhase): nat {
    if invocations == [] then 0
    else CountPhase(invocations[..|invocations| - 1], phase) + (if invocations[|invocations| - 1].phase == phase then 1 else 0)
  }

  function Summarize(status: EventStatus): EventStatus {
    var total := |status.invocations|;
    if total == 0 then MarkProcessed(status, "NoMatchingTriggers")
    else
      var succeeded, failed := CountPhase(status.invocations, Succeeded), CountPhase(status.invocations, Failed);
      var pending := total - succeeded - failed;
      if failed > 0 then MarkFailed(status, "InvocationFailed")
      else if pending == 0 && succeeded == total then MarkProcessed(status, "AllInvocationsSucceeded")
      else MarkProcessing(status, "InvocationsPending")
  }

  function SummarizeIfOpen(status: EventStatus): EventStatus {
    if status.phase in {NoPhase, PhasePending, PhaseProcessing} then Summarize(status) else status
  }

  // ---------------------------------------------------------------- one pass, many passes

  /** Everything a pass reads besides the persisted status.  The body is the rendered
      envelope, if the payload can be rendered; the listing is the triggers of the
      namespace, if they could be read. */
  datatype EventInput = EventInput(
    generation: int, eventType: string, body: Option<Bytes>, listing: Option<seq<Trigger>>,
    lookups: string -> FunctionLookup, invoker: Option<Invoker>)

  /** Done covers the requeue after a time to live, which has no bearing on invocations.
      Error drops the status changes of the pass, but not the calls it made. */
  datatype Outcome = Done | Backoff | Error

  datatype EventPass = EventPass(status: EventStatus, log: Log, outcome: Outcome)

  function Begin(input: EventInput, status: EventStatus, triggers: seq<Trigger>): EventStatus {
    status.(observedGeneration := input.generation, matchedTriggers := Names(triggers),
            invocations := EnsureInvocations(status.invocations, triggers))
  }

  function AllPending(invocations: seq<TriggerInvocation>): seq<TriggerInvocation> {
    seq(|invocations|, i requires 0 <= i < |invocations| => invocations[i].(phase := Pending))
  }

  function Conclude(status: EventStatus, log: Log, requeue: bool): EventPass {
    var final := SummarizeIfOpen(status);
    EventPass(final, log, if final.phase == PhaseProcessed then Done else if requeue then Backoff else Done)
  }

  function InvokeMatched(round: Round, triggers: seq<Trigger>, begun: EventStatus, stored: EventStatus, log: Log): EventPass
    requires |begun.invocations| == |triggers|
  {
    var walk := WalkTriggers(round, triggers, 0, begun.invocations, log, false);
    var walked := begun.(invocations := walk.invocations);
    match walk.end
    case LookupError => EventPass(stored, walk.log, Error)
    case InvokerNotImplemented => Conclude(MarkProcessing(walked, "InvokerNotConfigured"), walk.log, true)
    case Completed => Conclude(walked, walk.log, walk.requeue)
  }

  function ReconcileEvent(input: EventInput, status: EventStatus, log: Log): EventPass {
    if status.observedGeneration == input.generation && IsTerminal(status) then EventPass(status, log, Done)
    else if !IsFunctionEventType(input.eventType) then
      EventPass(MarkFailed(status.(observedGeneration := input.generation), "InvalidEventType"), log, Done)
    else if input.listing.None? then EventPass(status, log, Error)
    else
      var triggers := Matching(input.listing.value, input.eventType);
      if triggers == [] then
        EventPass(MarkProcessed(status.(observedGeneration := input.generation, matchedTriggers := [], invocations := []), "NoMatchingTriggers"), log, Done)
      else
        var begun := Begin(input, status, triggers);
        if input.invoker.None? then
          Conclude(MarkProcessing(begun.(invocations := AllPending(begun.invocations)), "InvokerNotConfigured"), log, true)
        else if input.body.None? then
          Conclude(MarkFailed(begun, "InvalidPayload"), log, false)
        else
          InvokeMatched(Round(input.invoker.value, input.body.value, input.lookups), triggers, begun, status, log)
  }

  datatype World = World(status: EventStatus, log: Log)

  function RunEvent(inputs: seq<EventInput>, world: World): World {
    if inputs == [] then world
    else
      var pass := ReconcileEvent(inputs[0], world.status, world.log);
      RunEvent(inputs[1..], World(pass.status, pass.log))
  }

  /** An event no pass has touched. */
  const FRESH_EVENT := EventStatus(0, NoPhase, [], [], None, None)
}
