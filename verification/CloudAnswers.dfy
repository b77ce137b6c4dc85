/** What the managers of cloud resources share: life cycles, and the ways in which a call to
    a service can go wrong. */
module CloudAnswers {

  /** Unset is the zero value of the SDK's enumerations. */
  datatype Lifecycle = Unset | Creating | Active | Inactive | Updating | Failed | Deleting | Deleted

  predicate Live(lifecycle: Lifecycle) { lifecycle != Deleted && lifecycle != Deleting }

  datatype Fault = NoFault | Answers404 | OtherFault

  /** A write can take effect without its answer arriving. */
  datatype WriteOutcome = WriteAnswered | WriteLost | WriteRejected

  /** A deletion can also be answered with 404. */
  datatype DeleteOutcome = DeleteAnswered | Delete404 | DeleteLost | DeleteRejected

  datatype CreateOutcome =
    | CreateAnswered(id: string, lifecycle: Lifecycle)
    | CreateLost(id: string, lifecycle: Lifecycle)
    | CreateRejected

  // ---------------------------------------------------------------- listings

  /** A listing is delivered in pages, at least one. */
  function PageCount<T>(pages: seq<seq<T>>): nat { if pages == [] then 1 else |pages| }

  function Page<T>(pages: seq<seq<T>>, k: nat): seq<T> { if k < |pages| then pages[k] else [] }

  function Flatten<T>(pages: seq<seq<T>>): seq<T> {
    if pages == [] then [] else Flatten(pages[..|pages| - 1]) + pages[|pages| - 1]
  }
}
