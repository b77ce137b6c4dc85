/** What both job and event reconcilers share: the invoker contract and the
    lookup of the referenced Function.

    The invoker is unknown code.  It is modelled by its answers: an arbitrary
    function of every call made so far and of the request at hand.  The calls
    and their answers form a log; no reconciler reads it, the theorems do. */
module Invocations {

  newtype byte = x: int | 0 <= x < 256
  type Bytes = seq<byte>

  datatype Option<+T> = None | Some(value: T)

  datatype Target = Target(namespace: string, functionName: string, functionOCID: string, invokeEndpoint: string)

  /** One request.  The origin is not sent: it names the trigger an event call is made
      for, so that the theorems can tell the calls in the log apart. */
  datatype Request = Request(target: Target, index: int, body: Bytes, origin: string)

  datatype Response = Response(invocationId: string, ociRequestId: string, statusCode: int)

  /** An error answer still carries a response, whose fields the callers record. */
  datatype Answer =
    | AnswerNotImplemented
    | AnswerOk(response: Response)
    | AnswerError(response: Response, message: string)

  datatype Call = Call(request: Request, answer: Answer)

  type Log = seq<Call>

  type Invoker = (Log, Request) -> Answer

  /** An invoker that never answers ErrNotImplemented. */
  ghost predicate Implemented(invoke: Invoker) {
    forall log, request :: invoke(log, request) != AnswerNotImplemented
  }

  // ---------------------------------------------------------------- reading the log

  /** A call counts unless the invoker turned out not to be implemented. */
  function Counted(calls: seq<Call>): nat {
    if calls == [] then 0
    else Counted(calls[..|calls| - 1]) + (if calls[|calls| - 1].answer.AnswerNotImplemented? then 0 else 1)
  }

  function Successes(calls: seq<Call>): nat {
    if calls == [] then 0
    else Successes(calls[..|calls| - 1]) + (if calls[|calls| - 1].answer.AnswerOk? then 1 else 0)
  }

  predicate EndsWithSuccess(calls: seq<Call>) { calls != [] && calls[|calls| - 1].answer.AnswerOk? }

  /** No call follows a success. */
  predicate NothingAfterSuccess(calls: seq<Call>) {
    forall k :: 0 <= k < |calls| - 1 ==> !calls[k].answer.AnswerOk?
  }

  lemma {:induction false} CountedAppend(calls: seq<Call>, call: Call)
    ensures Counted(calls + [call]) == Counted(calls) + (if call.answer.AnswerNotImplemented? then 0 else 1)
  {
    assert (calls + [call])[..|calls|] == calls;
  }

  lemma {:induction false} SuccessesAppend(calls: seq<Call>, call: Call)
    ensures Successes(calls + [call]) == Successes(calls) + (if call.answer.AnswerOk? then 1 else 0)
  {
    assert (calls + [call])[..|calls|] == calls;
  }

  lemma {:induction false} AtMostOneSuccess(calls: seq<Call>)
    requires NothingAfterSuccess(calls)
    ensures Successes(calls) == if EndsWithSuccess(calls) then 1 else 0
  {
    if calls != [] {
      AtMostOneSuccess(calls[..|calls| - 1]);
    }
  }

  /** The stateful client the reconcilers call. */
  class InvokerClient {
    const answers: Invoker
    var log: Log

    constructor (answers: Invoker)
      ensures this.answers == answers && log == []
    {
      this.answers := answers;
      log := [];
    }

    method Invoke(request: Request) returns (answer: Answer)
      modifies this
      ensures answer == answers(old(log), request)
      ensures log == old(log) + [Call(request, answer)]
    {
      answer := answers(log, request);
      log := log + [Call(request, answer)];
    }
  }

  /** The result of reading the referenced Function: absent, unreadable (an API
      error), or present with its Ready condition and invocation target. */
  datatype FunctionLookup =
    | NotFound
    | LookupFailed
    | Found(ready: bool, target: Target, notReadyMessage: string)

  predicate ReadyForInvocation(lookup: FunctionLookup) {
    lookup.Found? && lookup.target.functionOCID != "" && lookup.target.invokeEndpoint != "" && lookup.ready
  }
}
