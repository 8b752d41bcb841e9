# API performance monitor — a Dafny model

The application polls three HTTP endpoints every ten seconds, measures each
call's latency, sorts the outcome into success, timeout, connection error or
unexpected error, and appends one row per probe to the SQLite table
`response_times`. A web route returns the 100 most recent rows.

This project models the logic of `app.py` underneath that I/O:

- **Probe classification** (`Probe`): the outcome of `requests.get` is an input. It is either a
  response with a status code or a raised exception. The exception carries two flags, one per
  caught class (`Timeout`, `ConnectionError`), and its text `str(e)`. `Classify` applies the
  `except` clauses in source order and yields the recorded latency, status code and error message.
- **The table** (`MetricsStore`): class `ResponseTimes` holds the rows, whether the table
  exists, and the next AUTOINCREMENT id. `InitDb` is `CREATE TABLE IF NOT EXISTS`. `Insert`
  appends one row. `GetMetrics` is the `ORDER BY timestamp DESC LIMIT 100` query. Its answer is
  specified by `IsRecencyAnswer`, and `Recent` is a stable sort followed by a prefix.
- **Text order** (`Collation`): SQLite's BINARY collation on the `timestamp` TEXT column. It is
  proved reflexive, total, transitive and antisymmetric.
- **monitor_api** (`Monitor.MonitorApi`): the same locals, overwritten branch by branch, then
  exactly one insert, whichever branch ran.
- **Job registration** (`Jobs`): the scheduler's job store is a `map` from job id to job.
  `StartMonitoringJobs` loops over `MONITORED_APIS`. Because of `replace_existing=True`,
  re-adding an id replaces the stored job.
- **Start-up** (`App.Startup`): `init_db`, then `start_monitoring_jobs`.

Inputs that replace the environment: the timestamp text (`time.strftime`), the outcome of the
HTTP call (`requests.get`), and the two `time.monotonic` readings. The readings must satisfy
`start <= end`, as a monotonic clock guarantees. Latency is a `real`.

On these points the code does less than a design for such a monitor might promise; the model follows the code:

- `get_metrics` orders by the `timestamp` text, not by `id`. Rows with equal timestamps (one-second
  resolution) come back in an order SQLite does not specify. `IsRecencyAnswer` leaves that order
  open, and `Recent` keeps table order among ties.
- An unexpected exception records `str(e)`, which may be empty. A non-empty message is
  guaranteed only on the timeout and connection-error paths.
- A failed INSERT is not caught in `monitor_api`. The model returns the database error and
  changes nothing; it does not log and drop the error.
- The code sets no overlap policy of its own. An overlapping run of one job is prevented only by APScheduler's default `max_instances=1`. That is concurrency and is not modelled.
- Timestamps are local wall-clock time. When the local clock goes back (a daylight-saving fall-back, or the clock being stepped back), later rows can carry smaller timestamps. During that window, ordering by timestamp does not return the most recent rows.

## Model

| member | source | states |
|---|---|---|
| `Probe.ExitOf` | app.py:34-55 | only a received response takes the success exit; an exception that is a Timeout takes the Timeout clause even when it is also a ConnectionError |
| `Probe.Classify` | app.py:30-55 | the status code stays -1 on every exception path and is the response's code, unchanged, on success; the message is None exactly when a response came back; a timeout gives 5000.0 and "Timeout", a connection error 0.0 and "Connection Error", any other exception 0.0 and str(e); on success latency is (end - start) * 1000; latency is never negative |
| `Probe.ExitRecorded` | app.py:42-54 | reads back the exit from a stored measurement: no message exactly for a success, and a timeout only with latency 5000 |
| `Probe.ExitRecoverable` | app.py:38-54 | the stored values identify the exit taken, unless an unexpected exception's text is exactly "Connection Error" |
| `Probe.UnexpectedErrorCanMimicConnectionError` | app.py:47-54 | such an unexpected exception leaves the same values as a refused connection, so that exception cannot be removed |
| `Probe.ConnectTimeoutIsTimeout` | app.py:42-50 | an exception that is both a Timeout and a ConnectionError is recorded as a timeout |
| `Probe.ServerErrorIsRecordedAsResponse` | app.py:36-39 | an HTTP 500 is recorded with code 500, the measured latency and no message |
| `Collation.BinaryLeReflexive` | app.py:100 | every timestamp text collates at or below itself |
| `Collation.BinaryLeTotal` | app.py:100 | any two timestamp texts are ordered one way or the other |
| `Collation.BinaryLeTransitive` | app.py:100 | the text order used by ORDER BY is transitive |
| `Collation.BinaryLeAntisymmetric` | app.py:100 | two texts that collate both ways are equal |
| `MetricsStore.InsertDesc` | app.py:100 | inserting a row into a newest-first list keeps it newest-first and adds exactly that row |
| `MetricsStore.SortDesc` | app.py:100 | the rows ordered by timestamp descending are a permutation of the input |
| `MetricsStore.Recent` | app.py:100-101 | returns min(limit, number of rows) rows, each a row of the table (as a sub-multiset), newest timestamp first, with no omitted row newer than a returned one |
| `MetricsStore.RecentPrefix` | app.py:100 | a smaller LIMIT returns a prefix of a larger one, for the model's tie-break among equal timestamps only (an arbitrary SQLite answer need not have it; the code only uses LIMIT 100) |
| `MetricsStore.NewestRowIsReturned` | app.py:58-66 | a row just inserted with a timestamp newer than every other row is in every answer to the recency query (so also in what GetMetrics returns) |
| `MetricsStore.ResponseTimes.constructor` | app.py:8 | a database file without the table: no rows, next id 1 |
| `MetricsStore.ResponseTimes.InitDb` | app.py:11-25 | afterwards the table exists; the rows and the id counter are unchanged, both on a new and on an already-initialised database |
| `MetricsStore.ResponseTimes.Insert` | app.py:58-66 | on an existing table with ids left, appends exactly one row carrying the given values and the next id, greater than every existing id, with every earlier row unchanged, and advances the id counter by one; otherwise fails (no such table, or rowids exhausted) and changes nothing |
| `MetricsStore.ResponseTimes.GetMetrics` | app.py:95-103 | fails exactly when the table was never created; otherwise returns a recency answer with LIMIT 100 over the current rows |
| `Monitor.MonitorApi` | app.py:28-66 | each call appends exactly one row, whichever exit was taken: the call's timestamp, name and the classified latency, code and message, under the next id, above every existing one; the id counter advances by one; earlier rows are unchanged; a database error comes back and writes nothing |
| `Jobs.JobIdInjective` | app.py:84 | distinct API names give distinct job ids |
| `Jobs.RegistrationsKeys` | app.py:78-86 | after the registrations the store has a job under the id of each entry and under no other id |
| `Jobs.RegistrationsValue` | app.py:78-86 | the job under an entry's id is that of its last registration (replace_existing) |
| `Jobs.RegistrationsPerName` | app.py:78-86 | registering never duplicates: the store holds exactly one job per distinct API name, however often a name is registered |
| `Jobs.RegistrationsCount` | app.py:71-86 | with distinct names, as a dict's keys are, there is exactly one job per entry |
| `Jobs.RegistrationsWellFormed` | app.py:79-86 | every stored job is stored under its own id, runs every 10 seconds, and takes two arguments whose first is the name its id is made from |
| `Jobs.MonitoredApisJobs` | app.py:71-86 | for MONITORED_APIS the store is exactly the three jobs monitor_Google, monitor_GitHub and monitor_NonExistentAPI, each with its URL |
| `Jobs.Scheduler.constructor` | app.py:69 | a new scheduler has no jobs and is not running |
| `Jobs.Scheduler.AddJob` | app.py:79-86 | stores the job under its id, replacing any job with that id; nothing else changes |
| `Jobs.Scheduler.Start` | app.py:87 | afterwards the scheduler runs and its jobs are unchanged; fails exactly when it was already running |
| `Jobs.StartMonitoringJobs` | app.py:77-88 | the store becomes the old store overridden by one job per monitored API; the scheduler is then running |
| `App.Startup` | app.py:106-108 | on a database that may hold rows from an earlier run: the table exists, no row is lost, and a running scheduler holds exactly the three monitor jobs |

## Left out

- The HTTP call and its timing (`requests.get`, `time.monotonic`) are network I/O and clock reads. The call's outcome and the two clock readings are inputs.
- Latency is a real number, not an IEEE double, so rounding in `(end - start) * 1000` is not modelled.
- The SQLite engine is replaced by an in-memory sequence of rows: connections, transactions, SQL parsing, `sqlite3.Row` and `dict(row)`. Column types are Dafny types, so the NOT NULL constraints hold by construction.
- Concurrent writers from the scheduler's threads are not modelled. Each insert is one atomic step.
- APScheduler's threads, interval timing and overrun behaviour are concurrency. Only the job store and the started flag are modelled. `add_job` without `replace_existing` is never called, so its conflicting-id error is not modelled.
- Every job's callable is `monitor_api`, so the job record keeps only the id, the trigger and the arguments.
- The wall-clock timestamp (`time.strftime` of local time) is an input string. The model does not prove that text order matches time order. For the fixed-width format this holds only while the local clock never goes back.
- The index route, `jsonify`, `print` logging and `app.run` are web and console plumbing.
- `print` is assumed never to raise. In the code, a failing `print` after a response (app.py:40) is caught by `except Exception`. The row then records latency 0.0 and `str(e)`, but keeps the response's status code instead of -1. A failing `print` inside a handler (app.py:45, 50, 55) leaves `monitor_api` with the exception, and no row is written.
- `App.py` is not part of this model. It is a form handler around a foreign sentiment model.
- `MetricsStore.IsRecencyAnswer`: fixes no order among rows with equal timestamps, because SQLite specifies none.
