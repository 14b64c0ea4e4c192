/** The exceptions of the ADE worker; `submitAttempted` says that the irreversible step may have happened. */
module AdeErrors {

  datatype Code =
    | SessionRequired | SessionInvalid | FlowMismatch | FastPathUnavailable | NavigationFailed | UpstreamUnavailable
    | SubmitRejected | SubmitUnknown | SubmitDisabled | ConfigurationInvalid | InputInvalid | DuplicateOperation
    | SubmitBusy | OtherCode

  datatype Exception =
    | AdeAutomation(code: Code, message: string, submitAttempted: bool)
    | OtherException

  const DCO_ENTRY_UNAVAILABLE_MESSAGE := "Documento Commerciale on line non disponibile."

  predicate Attempted(e: Exception) {
    e.AdeAutomation? && e.submitAttempted
  }

  /** What can be thrown before the irreversible step: nothing there sets the flag. */
  type EarlyException = e: Exception | !Attempted(e) witness OtherException

  function Raise(code: Code): EarlyException {
    AdeAutomation(code, "", false)
  }

  function RaiseAttempted(code: Code): Exception {
    AdeAutomation(code, "", true)
  }
}
