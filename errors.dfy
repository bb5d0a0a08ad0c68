/**
 * Error values of the modelled code and the messages Go's fmt.Errorf gives
 * them. A wrapping error (`%w`) keeps the wrapped value as a field.
 */
module Errors {
  import opened Text

  /** An underlying failure reported by os/exec, the OS or the JSON decoder, by its text. */
  datatype Cause = Cause(text: string)

  /** The two values ctx.Err() can take once a context is done. */
  datatype CtxError = Canceled | DeadlineExceeded

  datatype Error =
    | ContextDone(reason: CtxError)
      // a runner's failure: "%q failed: %s: %w"
    | CommandFailed(command: string, combined: string, cause: Cause)
      // token.go: "token request failed (ns=%s sa=%s): %w"
    | TokenRequestFailed(ns: string, sa: string, inner: Error)
      // token.go: "token response json parse failed: %w (body=%q)"
    | TokenParseFailed(cause: Cause, body: string)
      // token.go: "token is empty"
    | TokenEmpty
      // rbac.go: "kubectl apply clusterrolebinding failed: %w"
    | ApplyFailed(inner: Error)
      // utils.go GetProjectDir: "failed to get current working directory: %w"
    | WorkdirFailed(cause: Cause)
      // utils.go UncommentCode
    | ReadFailed(filename: string, cause: Cause)
    | TargetNotFound(target: string)
    | WriteFailed(filename: string, cause: Cause)
      // any error a caller-supplied runner returns
    | Foreign(text: string)

  function ContextMessage(reason: CtxError): string {
    match reason
    case Canceled => "context canceled"
    case DeadlineExceeded => "context deadline exceeded"
  }

  /** err.Error() */
  function Message(e: Error): string {
    match e
    case ContextDone(reason) => ContextMessage(reason)
    case CommandFailed(command, combined, cause) =>
      Quote(command) + " failed: " + combined + ": " + cause.text
    case TokenRequestFailed(ns, sa, inner) =>
      "token request failed (ns=" + ns + " sa=" + sa + "): " + Message(inner)
    case TokenParseFailed(cause, body) =>
      "token response json parse failed: " + cause.text + " (body=" + Quote(body) + ")"
    case TokenEmpty => "token is empty"
    case ApplyFailed(inner) => ApplyFailedPrefix + Message(inner)
    case WorkdirFailed(cause) => "failed to get current working directory: " + cause.text
    case ReadFailed(filename, cause) => "failed to read file " + Quote(filename) + ": " + cause.text
    case TargetNotFound(target) => "unable to find the code " + Quote(target) + " to be uncomment"
    case WriteFailed(filename, cause) => "failed to write file " + Quote(filename) + ": " + cause.text
    case Foreign(text) => text
  }

  const ApplyFailedPrefix := "kubectl apply clusterrolebinding failed: "

  /** errors.Unwrap: the error a `%w` wrapper carries. */
  function Unwrap(e: Error): (r: Wrapped)
  {
    match e
    case TokenRequestFailed(_, _, inner) => WrapsError(inner)
    case ApplyFailed(inner) => WrapsError(inner)
    case CommandFailed(_, _, cause) => WrapsCause(cause)
    case TokenParseFailed(cause, _) => WrapsCause(cause)
    case WorkdirFailed(cause) => WrapsCause(cause)
    case ReadFailed(_, cause) => WrapsCause(cause)
    case WriteFailed(_, cause) => WrapsCause(cause)
    case _ => WrapsNothing
  }

  datatype Wrapped = WrapsNothing | WrapsError(error: Error) | WrapsCause(cause: Cause)
}
