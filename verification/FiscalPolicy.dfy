/**
 * What the fiscal worker decides after a failed provider call:
 * retry through the queue, reject, or stop for a human.
 */
module FiscalPolicy {
  import opened Wrappers

  datatype Provider = Mock | AcubeSmartReceipts | OpenapiSmartReceipts | AdeWeb

  datatype FailureStatus = Retry | Rejected | Unknown | AuthRequired

  datatype ErrorDetails = ErrorDetails(code: string, externalId: Option<string>, externalStatus: Option<string>)

  /** The three kinds of exception the executor tells apart. */
  datatype FiscalError =
    | SafetyError(authRequired: bool, details: ErrorDetails)
    | ProviderError(retryable: bool, details: ErrorDetails)
    | UnclassifiedError

  datatype Decision = Decision(status: FailureStatus, retryable: bool, details: ErrorDetails)

  const OPENAPI_MIN_ATTEMPTS: nat := 10

  function EffectiveMaxAttempts(provider: Provider, maxAttempts: nat): nat {
    if provider.OpenapiSmartReceipts? && maxAttempts < OPENAPI_MIN_ATTEMPTS then OPENAPI_MIN_ATTEMPTS else maxAttempts
  }

  function RetryOrReject(retryable: bool, details: ErrorDetails): Decision {
    Decision(if retryable then Retry else Rejected, retryable, details)
  }

  function Classify(provider: Provider, attempts: nat, maxAttempts: nat, error: FiscalError): Decision {
    match error
    case SafetyError(authRequired, details) =>
      Decision(if authRequired then AuthRequired else Unknown, false, details)
    case ProviderError(retryable, details) =>
      RetryOrReject(retryable && attempts < EffectiveMaxAttempts(provider, maxAttempts), details)
    case UnclassifiedError =>
      if provider.AdeWeb? then
        Decision(Unknown, false, ErrorDetails("ADE_WEB_UNKNOWN_RESULT", None, None))
      else
        RetryOrReject(attempts < EffectiveMaxAttempts(provider, maxAttempts),
                      ErrorDetails("FISCAL_UNKNOWN_ERROR", None, None))
  }

  /** The queue sees an exception (and redelivers) for exactly the failures that leave the document in RETRY. */
  lemma RetryExactlyWhen(provider: Provider, attempts: nat, maxAttempts: nat, error: FiscalError)
    ensures var d := Classify(provider, attempts, maxAttempts, error);
            && (d.retryable <==> d.status == Retry)
            && (d.status == Retry <==>
                && attempts < EffectiveMaxAttempts(provider, maxAttempts)
                && !error.SafetyError?
                && (error.ProviderError? ==> error.retryable)
                && (error.UnclassifiedError? ==> provider != AdeWeb))
            && (d.status == AuthRequired <==> error.SafetyError? && error.authRequired)
            && (d.status == Unknown <==>
                || (error.SafetyError? && !error.authRequired)
                || (error.UnclassifiedError? && provider == AdeWeb))
  {
  }
}
