/** The "Open File" entry component. Its only handler asks the host for a
    file-dialog result and forwards a chosen path to its parent; it keeps
    no state. */
module FileSelector {
  import opened Common

  /** What the `open_pdf_dialog` call produces: a value that is a path or
      `null` (the user cancelled), or a thrown error. */
  datatype DialogOutcome = Returned(result: Option<string>) | Threw

  /** What `handleOpenFile` does with that outcome: call `onFileSelected`
      once with a path, do nothing, or write the error to the console. */
  datatype SelectorEffect = Forwarded(path: string) | NothingForwarded | ErrorLogged

  /** The handler's one branch: a truthy path is forwarded, a `null` or
      empty result is dropped, and a thrown error is caught and logged. */
  function HandleOpenFile(outcome: DialogOutcome): (e: SelectorEffect)
    ensures e.Forwarded? <==> outcome.Returned? && outcome.result.Some? && Truthy(outcome.result.value)
    ensures e.Forwarded? ==> e.path == outcome.result.value
    ensures e.ErrorLogged? <==> outcome.Threw?
  {
    match outcome
    case Threw => ErrorLogged
    case Returned(result) =>
      if result.Some? && Truthy(result.value) then Forwarded(result.value) else NothingForwarded
  }

  /** An empty path is falsy, so it is handled exactly like a cancelled
      dialog, and neither forwards anything. */
  lemma EmptyPathActsAsCancel()
    ensures HandleOpenFile(Returned(Some(""))) == HandleOpenFile(Returned(None)) == NothingForwarded
  {
  }

  /** Whatever the dialog does, a forwarded path is never empty. */
  lemma ForwardedPathIsTruthy(outcome: DialogOutcome)
    requires HandleOpenFile(outcome).Forwarded?
    ensures Truthy(HandleOpenFile(outcome).path)
  {
  }
}
