/**
 * monitor_api (app.py:28-66): one probe of one API, then one row written.
 * The timestamp text, the outcome of the HTTP call and the two monotonic
 * clock readings around it are inputs.
 */
module Monitor {
  import opened Wrappers
  import opened Probe
  import opened MetricsStore

  /** The row monitor_api writes for a call, given the id the table assigns. */
  function ObservationRow(id: int, timestamp: string, apiName: string, m: Measurement): Row
  {
    Row(id, timestamp, apiName, m.responseTime, m.statusCode, m.errorMessage)
  }

  /**
   * Starts from the defaults, lets the exit of the `try` statement overwrite
   * them, then inserts one row whichever exit was taken. Database errors are
   * not caught: they come back as the result, and then nothing was written.
   */
  method MonitorApi(table: ResponseTimes, apiName: string, timestamp: string,
                    call: Call, start: real, end: real)
    returns (res: Result<int, DbError>)
    requires table.Valid()
    requires start <= end
    modifies table
    ensures table.Valid()
    ensures table.created == old(table.created)
    ensures res.Err? <==> !old(table.created) || old(table.nextId) > MaxRowId
    ensures res.Err? ==> table.rows == old(table.rows) && table.nextId == old(table.nextId)
    ensures res.Ok? ==>
              && res.value == old(table.nextId)
              && table.rows == old(table.rows) + [ObservationRow(res.value, timestamp, apiName, Classify(call, start, end))]
              && table.nextId == old(table.nextId) + 1
              && (forall y :: y in old(table.rows) ==> y.id < res.value)
  {
    var responseTime: real := 0.0;
    var statusCode: int := NoStatus;
    var errorMessage: Option<string> := None;

    match call {
      case Response(code) =>
        responseTime := (end - start) * 1000.0;
        statusCode := code;
      case Raised(e) =>
        if e.isTimeout {
          responseTime := TimeoutLatencyMs;
          errorMessage := Some(TimeoutMessage);
        } else if e.isConnectionError {
          responseTime := 0.0;
          errorMessage := Some(ConnectionErrorMessage);
        } else {
          responseTime := 0.0;
          errorMessage := Some(e.text);
        }
    }

    res := table.Insert(timestamp, apiName, responseTime, statusCode, errorMessage);
  }
}
