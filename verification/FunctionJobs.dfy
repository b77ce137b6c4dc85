/** The FunctionJob engine as values: one reconcile pass is a function of the
    persisted status, the call log and what the pass reads. */
module FunctionJobs {
  import opened Invocations

  /** Job phases and per-payload phases use the same names; Unset is the empty string. */
  datatype Phase = Unset | Pending | Running | Succeeded | Failed

  datatype InvocationStatus = InvocationStatus(
    index: int, payloadDigest: string, phase: Phase, attempts: int,
    invocationId: string, ociRequestId: string, statusCode: int, error: string, completed: bool)

  datatype Condition = Condition(status: bool, reason: string)

  datatype Conditions = Conditions(
    resolved: Option<Condition>, pending: Option<Condition>, running: Option<Condition>,
    complete: Option<Condition>, failed: Option<Condition>)

  datatype JobStatus = JobStatus(
    observedGeneration: int, phase: Phase, started: bool, completed: bool,
    active: int, succeeded: int, failed: int, retries: int,
    lastError: string, lastOciRequestId: string,
    statuses: seq<InvocationStatus>, conditions: Conditions)

  datatype JobSpec = JobSpec(
    functionName: string, payload: Option<Bytes>, payloads: seq<Bytes>, parallelism: int, retryLimit: int)
  {
    function DesiredParallelism(): int { if parallelism < 1 then 1 else parallelism }
    function DesiredRetryLimit(): int { if retryLimit < 0 then 0 else retryLimit }

    /** Never empty: a job without payloads invokes its Function once with no body. */
    function InlinePayloads(): seq<Bytes> {
      if |payloads| > 0 then payloads
      else if payload.Some? then [payload.value]
      else [[]]
    }
  }

  predicate IsTerminal(status: JobStatus) { status.phase == Succeeded || status.phase == Failed }

  predicate IsRunnable(status: InvocationStatus, retryLimit: int) {
    if status.phase == Succeeded then false
    else if status.phase == Failed && status.attempts >= retryLimit + 1 then false
    else true
  }

  predicate HasRunnable(statuses: seq<InvocationStatus>, retryLimit: int) {
    exists i :: 0 <= i < |statuses| && IsRunnable(statuses[i], retryLimit)
  }

  // ---------------------------------------------------------------- status list

  /** The digest of a payload; sum stands for the hex SHA-256 of its bytes. */
  function DigestPayload(sum: Bytes -> string, payload: Bytes): string { "sha256:" + sum(payload) }

  function FreshStatus(index: int, digest: string): InvocationStatus {
    InvocationStatus(index, digest, Pending, 0, "", "", 0, "", false)
  }

  /** The persisted entries by index; the last entry of an index wins. */
  function ByIndex(statuses: seq<InvocationStatus>): (m: map<int, InvocationStatus>)
    ensures forall k :: k in m ==> m[k].index == k && m[k] in statuses
  {
    if statuses == [] then map[]
    else
      var last := statuses[|statuses| - 1];
      ByIndex(statuses[..|statuses| - 1])[last.index := last]
  }

  function CarryOver(sum: Bytes -> string, existing: map<int, InvocationStatus>, index: int, payload: Bytes): InvocationStatus {
    var digest := DigestPayload(sum, payload);
    var status := if index in existing && existing[index].payloadDigest == digest then existing[index] else FreshStatus(index, digest);
    var named := if status.payloadDigest == "" then status.(payloadDigest := digest) else status;
    if named.phase == Unset then named.(phase := Pending) else named
  }

  function EnsureStatuses(sum: Bytes -> string, statuses: seq<InvocationStatus>, payloads: seq<Bytes>): seq<InvocationStatus> {
    var existing := ByIndex(statuses);
    seq(|payloads|, i requires 0 <= i < |payloads| => CarryOver(sum, existing, i, payloads[i]))
  }

  // ---------------------------------------------------------------- counters

  function CountPhase(statuses: seq<InvocationStatus>, phase: Phase): nat {
    if statuses == [] then 0
    else CountPhase(statuses[..|statuses| - 1], phase) + (if statuses[|statuses| - 1].phase == phase then 1 else 0)
  }

  function CountRetries(statuses: seq<InvocationStatus>): nat {
    if statuses == [] then 0
    else
      var attempts := statuses[|statuses| - 1].attempts;
      CountRetries(statuses[..|statuses| - 1]) + (if attempts > 1 then attempts - 1 else 0)
  }

  function RecomputeCounts(status: JobStatus): JobStatus {
    status.(active := CountPhase(status.statuses, Running),
            succeeded := CountPhase(status.statuses, Succeeded),
            failed := CountPhase(status.statuses, Failed),
            retries := CountRetries(status.statuses))
  }

  // ---------------------------------------------------------------- invoking

  /** What a pass holds fixed while it walks the status list. */
  datatype Round = Round(invoke: Invoker, target: Target, payloads: seq<Bytes>, retryLimit: int)

  /** The two job-level fields every call may overwrite. */
  datatype Head = Head(lastError: string, lastOciRequestId: string)

  datatype Visit = Visit(status: InvocationStatus, head: Head, log: Log, stopped: bool)

  function Observe(status: InvocationStatus, response: Response): InvocationStatus {
    status.(attempts := status.attempts + 1, invocationId := response.invocationId,
            ociRequestId := response.ociRequestId, statusCode := response.statusCode)
  }

  function NoteRequestId(head: Head, response: Response): Head {
    if response.ociRequestId != "" then head.(lastOciRequestId := response.ociRequestId) else head
  }

  /** The inner retry loop over one payload. */
  function VisitPayload(round: Round, status: InvocationStatus, head: Head, log: Log): (visit: Visit)
    requires 0 <= status.index < |round.payloads|
    ensures visit.status.index == status.index && visit.status.payloadDigest == status.payloadDigest
    decreases round.retryLimit + 1 - status.attempts
  {
    if status.attempts >= round.retryLimit + 1 then Visit(status, head, log, false)
    else
      var request := Request(round.target, status.index, round.payloads[status.index], "");
      var answer := round.invoke(log, request);
      var log' := log + [Call(request, answer)];
      match answer
      case AnswerNotImplemented => Visit(status.(phase := Pending), head, log', true)
      case AnswerOk(response) =>
        Visit(Observe(status, response).(phase := Succeeded, error := "", completed := true),
              NoteRequestId(head, response), log', false)
      case AnswerError(response, message) =>
        var observed := Observe(status, response).(error := message);
        var head' := NoteRequestId(head, response).(lastError := message);
        if observed.attempts >= round.retryLimit + 1 then
          Visit(observed.(phase := Failed, completed := true), head', log', false)
        else
          VisitPayload(round, observed, head', log')
  }

  datatype Sweep = Sweep(statuses: seq<InvocationStatus>, head: Head, log: Log, processed: nat, stopped: bool)

  predicate InRange(statuses: seq<InvocationStatus>, n: nat) {
    forall i :: 0 <= i < |statuses| ==> 0 <= statuses[i].index < n
  }

  /** The outer loop from entry i on: visit runnable payloads in order until budget of them
      are processed or the invoker turns out not to be implemented. */
  function SweepPayloads(round: Round, statuses: seq<InvocationStatus>, i: nat, budget: nat, head: Head, log: Log): Sweep
    requires InRange(statuses, |round.payloads|)
    decreases |statuses| - i
  {
    if i >= |statuses| || budget == 0 then Sweep(statuses, head, log, 0, false)
    else if !IsRunnable(statuses[i], round.retryLimit) then SweepPayloads(round, statuses, i + 1, budget, head, log)
    else
      var visit := VisitPayload(round, statuses[i].(phase := Running), head, log);
      var updated := statuses[i := visit.status];
      if visit.stopped then Sweep(updated, visit.head, visit.log, 1, true)
      else
        var rest := SweepPayloads(round, updated, i + 1, budget - 1, visit.head, visit.log);
        rest.(processed := rest.processed + 1)
  }

  // ---------------------------------------------------------------- marking

  function Yes(reason: string): Option<Condition> { Some(Condition(true, reason)) }
  function No(reason: string): Option<Condition> { Some(Condition(false, reason)) }

  function SetConditions(status: JobStatus, pending: Option<Condition>, running: Option<Condition>,
                         complete: Option<Condition>, failed: Option<Condition>): JobStatus
  {
    status.(conditions := Conditions(status.conditions.resolved, pending, running, complete, failed))
  }

  function SetResolved(status: JobStatus, resolved: Option<Condition>): JobStatus {
    status.(conditions := status.conditions.(resolved := resolved))
  }

  function MarkInvalidRef(status: JobStatus): JobStatus {
    SetConditions(status.(phase := Failed, completed := true),
                  No("InvalidFunctionRef"), No("InvalidFunctionRef"), No("InvalidFunctionRef"), Yes("InvalidFunctionRef"))
  }

  function MarkWaitingForFunction(status: JobStatus, reason: string): JobStatus {
    SetConditions(SetResolved(status.(phase := Pending, active := 0), No(reason)),
                  Yes(reason), No("WaitingForFunction"), No("WaitingForFunction"), No("WaitingForFunction"))
  }

  function MarkFunctionNotReady(status: JobStatus, message: string): JobStatus {
    SetConditions(SetResolved(status.(phase := Failed, active := 0, lastError := message, completed := true), No("FunctionNotReady")),
                  No("FunctionNotReady"), No("FunctionNotReady"), No("FunctionNotReady"), Yes("FunctionNotReady"))
  }

  function MarkInvokerNotConfigured(status: JobStatus): JobStatus {
    SetConditions(status.(phase := Pending, active := 0, lastError := "invoker is not configured"),
                  Yes("InvokerNotConfigured"), No("InvokerNotConfigured"), No("InvokerNotConfigured"), No("InvokerNotConfigured"))
  }

  function Summarize(status: JobStatus, total: int): JobStatus {
    if total == 0 then
      SetConditions(status.(phase := Succeeded, completed := true),
                    No("NoPayloads"), No("NoPayloads"), Yes("NoPayloads"), No("NoFailedInvocations"))
    else if status.failed > 0 && status.succeeded + status.failed == total then
      SetConditions(status.(phase := Failed, completed := true),
                    No("PayloadsTerminal"), No("PayloadsTerminal"), No("InvocationFailed"), Yes("InvocationFailed"))
    else if status.succeeded == total then
      SetConditions(status.(phase := Succeeded, lastError := "", completed := true),
                    No("AllInvocationsSucceeded"), No("AllInvocationsSucceeded"), Yes("AllInvocationsSucceeded"), No("NoFailedInvocations"))
    else
      SetConditions(status.(phase := Running, completed := false),
                    No("FunctionReady"), Yes("PayloadsRemaining"), No("PayloadsRemaining"), No("PayloadsRemaining"))
  }

  // ---------------------------------------------------------------- one pass, many passes

  /** Everything one pass reads besides the persisted status. */
  datatype PassInput = PassInput(spec: JobSpec, generation: int, lookup: FunctionLookup, invoker: Option<Invoker>)

  /** How a pass ends: nothing more to do, an immediate requeue, or an error whose
      status changes are dropped. */
  datatype Outcome = Done | Requeue | Error

  datatype JobPass = JobPass(status: JobStatus, log: Log, outcome: Outcome)

  /** The status a pass starts invoking from. */
  function Prepare(sum: Bytes -> string, generation: int, payloads: seq<Bytes>, status: JobStatus): JobStatus {
    var resolved := SetResolved(status.(observedGeneration := generation, started := true), Yes("FunctionReady"));
    RecomputeCounts(resolved.(statuses := EnsureStatuses(sum, status.statuses, payloads)))
  }

  function HeadOf(status: JobStatus): Head { Head(status.lastError, status.lastOciRequestId) }

  function InvokePrepared(round: Round, limit: nat, prepared: JobStatus, log: Log): Sweep
    requires InRange(prepared.statuses, |round.payloads|)
  {
    SweepPayloads(round, prepared.statuses, 0, limit, HeadOf(prepared), log)
  }

  function SweepStatus(prepared: JobStatus, sweep: Sweep): JobStatus {
    prepared.(statuses := sweep.statuses, lastError := sweep.head.lastError, lastOciRequestId := sweep.head.lastOciRequestId)
  }

  function Finish(prepared: JobStatus, sweep: Sweep, total: int): JobStatus {
    Summarize(RecomputeCounts(SweepStatus(prepared, sweep)), total)
  }

  function RoundOf(input: PassInput): Round
    requires input.lookup.Found? && input.invoker.Some?
  {
    Round(input.invoker.value, input.lookup.target, input.spec.InlinePayloads(), input.spec.DesiredRetryLimit())
  }

  /** The part of a pass that invokes and summarizes. */
  function InvokeAndSummarize(round: Round, limit: nat, prepared: JobStatus, log: Log): JobPass
    requires InRange(prepared.statuses, |round.payloads|)
  {
    var sweep := InvokePrepared(round, limit, prepared, log);
    if sweep.stopped then JobPass(MarkInvokerNotConfigured(SweepStatus(prepared, sweep)), sweep.log, Done)
    else
      var final := Finish(prepared, sweep, |round.payloads|);
      JobPass(final, sweep.log,
              if final.phase == Running && HasRunnable(final.statuses, round.retryLimit) then Requeue else Done)
  }

  function ReconcileJob(sum: Bytes -> string, input: PassInput, status: JobStatus, log: Log): JobPass {
    if IsTerminal(status) then JobPass(status, log, Done)
    else
      var base := status.(observedGeneration := input.generation, started := true);
      if input.spec.functionName == "" then JobPass(MarkInvalidRef(base), log, Done)
      else if input.lookup.LookupFailed? then JobPass(status, log, Error)
      else if input.lookup.NotFound? then JobPass(MarkWaitingForFunction(base, "FunctionNotFound"), log, Done)
      else if !ReadyForInvocation(input.lookup) then JobPass(MarkFunctionNotReady(base, input.lookup.notReadyMessage), log, Done)
      else
        var prepared := Prepare(sum, input.generation, input.spec.InlinePayloads(), status);
        if input.invoker.None? then JobPass(MarkInvokerNotConfigured(prepared), log, Done)
        else InvokeAndSummarize(RoundOf(input), input.spec.DesiredParallelism(), prepared, log)
  }

  /** A run: passes over the persisted status, each with inputs of its own. */
  datatype World = World(status: JobStatus, log: Log)

  function RunJob(sum: Bytes -> string, inputs: seq<PassInput>, world: World): World {
    if inputs == [] then world
    else
      var pass := ReconcileJob(sum, inputs[0], world.status, world.log);
      RunJob(sum, inputs[1..], World(pass.status, pass.log))
  }

  /** A job no pass has touched. */
  const FRESH_JOB := JobStatus(0, Unset, false, false, 0, 0, 0, 0, "", "", [],
                              Conditions(None, None, None, None, None))
}
