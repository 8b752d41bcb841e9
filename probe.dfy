/**
 * The outcome of one probe in monitor_api (app.py:28-55): the HTTP call either
 * returns a response or raises, and the `except` clauses, tried in source order,
 * turn that into the three values recorded in the row.
 */
module Probe {
  import opened Wrappers

  /**
   * An exception raised by `requests.get`. The flags say which of the two
   * caught base classes it is an instance of: a ReadTimeout is only a Timeout,
   * a ProxyError only a ConnectionError, a ConnectTimeout is both, and anything
   * else (an invalid URL, a non-requests error) is neither. `text` is `str(e)`.
   */
  datatype RaisedError = RaisedError(isTimeout: bool, isConnectionError: bool, text: string)

  /** What `requests.get(url, timeout=5)` did. */
  datatype Call =
    | Response(code: int)
    | Raised(error: RaisedError)

  /** The three values monitor_api writes besides the timestamp and name. */
  datatype Measurement = Measurement(responseTime: real, statusCode: int, errorMessage: Option<string>)

  /** Which of the four exits of the `try` statement handled the call. */
  datatype Exit = Success | TimeoutExit | ConnectionErrorExit | UnexpectedExit

  /** The latency recorded for a timeout: the full timeout, in milliseconds. */
  const TimeoutLatencyMs: real := 5000.0
  /** The status code recorded when no response was received. */
  const NoStatus: int := -1
  const TimeoutMessage: string := "Timeout"
  const ConnectionErrorMessage: string := "Connection Error"

  /** The exit taken: the first `except` clause whose class matches wins. */
  function ExitOf(call: Call): (x: Exit)
    ensures x == Success <==> call.Response?
    ensures call.Raised? && call.error.isTimeout ==> x == TimeoutExit
  {
    match call
    case Response(_) => Success
    case Raised(e) =>
      if e.isTimeout then TimeoutExit
      else if e.isConnectionError then ConnectionErrorExit
      else UnexpectedExit
  }

  /**
   * The measurement monitor_api records for a call whose monotonic clock read
   * `start` before and `end` after it (`end` is only meaningful on a response).
   */
  function Classify(call: Call, start: real, end: real): (m: Measurement)
    requires start <= end
    // only a received response sets the status code, and it is kept as is (4xx, 5xx too)
    ensures call.Response? ==> m.statusCode == call.code
    ensures call.Raised? ==> m.statusCode == NoStatus
    // an error message is present exactly when no response was received
    ensures m.errorMessage.None? <==> call.Response?
    ensures call.Response? ==> m.responseTime == (end - start) * 1000.0
    ensures ExitOf(call) == TimeoutExit ==>
              m.responseTime == TimeoutLatencyMs && m.errorMessage == Some(TimeoutMessage)
    ensures ExitOf(call) == ConnectionErrorExit ==>
              m.responseTime == 0.0 && m.errorMessage == Some(ConnectionErrorMessage)
    ensures ExitOf(call) == UnexpectedExit ==>
              m.responseTime == 0.0 && m.errorMessage == Some(call.error.text)
    // latency is never negative, since the monotonic clock does not go back
    ensures m.responseTime >= 0.0
  {
    match call
    case Response(code) => Measurement((end - start) * 1000.0, code, None)
    case Raised(e) =>
      if e.isTimeout then Measurement(TimeoutLatencyMs, NoStatus, Some(TimeoutMessage))
      else if e.isConnectionError then Measurement(0.0, NoStatus, Some(ConnectionErrorMessage))
      else Measurement(0.0, NoStatus, Some(e.text))
  }

  /**
   * Reads back from a stored measurement which exit produced it: no message
   * means a response; the timeout latency with the timeout text means a
   * timeout; the connection-error text means a connection error.
   */
  function ExitRecorded(m: Measurement): (x: Exit)
    ensures x == Success <==> m.errorMessage.None?
    ensures x == TimeoutExit ==> m.responseTime == TimeoutLatencyMs
  {
    if m.errorMessage.None? then Success
    else if m.responseTime == TimeoutLatencyMs && m.errorMessage.value == TimeoutMessage then TimeoutExit
    else if m.errorMessage.value == ConnectionErrorMessage then ConnectionErrorExit
    else UnexpectedExit
  }

  /**
   * The recorded row identifies the exit taken, except for an unexpected
   * exception whose text is literally "Connection Error".
   */
  lemma ExitRecoverable(call: Call, start: real, end: real)
    requires start <= end
    requires !(ExitOf(call) == UnexpectedExit && call.error.text == ConnectionErrorMessage)
    ensures ExitRecorded(Classify(call, start, end)) == ExitOf(call)
  {
  }

  /**
   * The exception above cannot be avoided: an unexpected error whose text is
   * "Connection Error" leaves exactly the row a connection error leaves.
   */
  lemma UnexpectedErrorCanMimicConnectionError(start: real, end: real)
    requires start <= end
    ensures var unexpected := Raised(RaisedError(false, false, ConnectionErrorMessage));
            var refused := Raised(RaisedError(false, true, "[Errno 111] Connection refused"));
            ExitOf(unexpected) != ExitOf(refused) &&
            Classify(unexpected, start, end) == Classify(refused, start, end)
  {
  }

  /** A connect timeout is both a Timeout and a ConnectionError; the Timeout clause, first in source order, handles it. */
  lemma ConnectTimeoutIsTimeout(text: string, start: real, end: real)
    requires start <= end
    ensures var m := Classify(Raised(RaisedError(true, true, text)), start, end);
            m == Measurement(TimeoutLatencyMs, NoStatus, Some(TimeoutMessage))
  {
  }

  /** A server error is still a received response: its code is recorded and no message is. */
  lemma ServerErrorIsRecordedAsResponse(start: real, end: real)
    requires start <= end
    ensures Classify(Response(500), start, end) == Measurement((end - start) * 1000.0, 500, None)
  {
  }
}
