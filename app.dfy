/** The start-up sequence of the application (app.py:106-108), without the web server. */
module App {
  import opened MetricsStore
  import opened Jobs

  /**
   * init_db, then start_monitoring_jobs on a fresh scheduler. The database
   * file may already hold rows from an earlier run; none of them is lost.
   */
  method Startup(table: ResponseTimes) returns (scheduler: Scheduler)
    requires table.Valid()
    modifies table
    ensures table.Valid() && table.created
    ensures table.rows == old(table.rows) && table.nextId == old(table.nextId)
    ensures fresh(scheduler) && scheduler.Valid() && scheduler.running
    ensures scheduler.jobs == map[
      "monitor_Google" := MonitorJob("Google", "https://www.google.com"),
      "monitor_GitHub" := MonitorJob("GitHub", "https://api.github.com"),
      "monitor_NonExistentAPI" := MonitorJob("NonExistentAPI", "http://this-api-does-not-exist.com")]
  {
    table.InitDb();
    scheduler := new Scheduler();
    var started := StartMonitoringJobs(scheduler);
    assert map[] + Registrations(MonitoredApis) == Registrations(MonitoredApis);
    MonitoredApisJobs();
  }
}
