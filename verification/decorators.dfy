/** uncaught_exceptions_handler: any exception becomes a health-channel report and an HTTP 200. */
module Decorators {
  import opened Wrappers
  import opened Texts
  import opened Messages
  import opened Effects

  const HTTP_OK: int := 200

  /**
   * Wraps a run of the named function. `healthChannel` is the health channel id read from
   * the parameter store; the report is sent through `send_message`, whose own errors escape.
   */
  function UncaughtExceptionsHandler(lambdaName: string, healthChannel: string, run: Run): (r: Run)
    ensures run.outcome.Returned? ==> r == run
    ensures run.outcome.Raised? && healthChannel != "" ==>
      r.outcome == Returned(StatusCode(HTTP_OK)) &&
      r.effects == run.effects + [Post(ToChannel(healthChannel, [Section(LambdaError(lambdaName, run.outcome.error))]))]
    ensures run.outcome.Raised? && healthChannel == "" ==>
      r.outcome.Raised? && r.outcome.error.ArgumentsError? && r.effects == run.effects
  {
    match run.outcome
    case Returned(_) => run
    case Raised(e) =>
      match SendMessage(Some(LambdaError(lambdaName, e)), [], healthChannel, "")
      case Success(d) => Run(run.effects + [Post(d)], Returned(StatusCode(HTTP_OK)))
      case Failure(x) => Run(run.effects, Raised(x))
  }
}
