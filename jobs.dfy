/**
 * start_monitoring_jobs (app.py:68-88): one interval job per monitored API in
 * the scheduler's job store, each running monitor_api(name, url). Ids prefixed
 * with "monitor_" key the store, and `replace_existing=True` makes re-adding
 * an id replace the stored job.
 */
module Jobs {
  import opened Wrappers

  datatype Trigger = Interval(seconds: nat)

  /** A stored job; its callable is always monitor_api, so only its arguments are kept. */
  datatype Job = Job(id: string, trigger: Trigger, args: seq<string>)

  /** The error APScheduler raises when `start` is called on a running scheduler. */
  datatype SchedulerError = AlreadyRunning

  /** MONITORED_APIS (app.py:71-75), in dictionary order: name and URL. */
  const MonitoredApis: seq<(string, string)> := [
    ("Google", "https://www.google.com"),
    ("GitHub", "https://api.github.com"),
    ("NonExistentAPI", "http://this-api-does-not-exist.com")
  ]

  const MonitorIntervalSeconds: nat := 10

  const JobIdPrefix: string := "monitor_"

  /** `f'monitor_{api_name}'` */
  function JobId(name: string): string
  {
    JobIdPrefix + name
  }

  /** The job registered for one monitored API. */
  function MonitorJob(name: string, url: string): Job
  {
    Job(JobId(name), Interval(MonitorIntervalSeconds), [name, url])
  }

  /** Distinct names give distinct job ids. */
  lemma JobIdInjective(a: string, b: string)
    requires JobId(a) == JobId(b)
    ensures a == b
  {
    assert a == JobId(a)[|JobIdPrefix|..];
    assert b == JobId(b)[|JobIdPrefix|..];
  }

  /** The jobs that registering `apis` in order adds, later entries replacing earlier ones with the same id. */
  function Registrations(apis: seq<(string, string)>): map<string, Job>
  {
    if apis == [] then map[]
    else
      var last := apis[|apis| - 1];
      Registrations(apis[..|apis| - 1])[JobId(last.0) := MonitorJob(last.0, last.1)]
  }

  /** Every registered job is a monitor job for one of the entries, stored under its own id. */
  ghost predicate WellFormed(jobs: map<string, Job>)
  {
    forall k :: k in jobs ==> jobs[k].id == k
  }

  /** The store holds a job under the id of each entry and under no other id. */
  lemma {:induction false} RegistrationsKeys(apis: seq<(string, string)>)
    ensures forall k :: k in Registrations(apis) <==> exists i :: 0 <= i < |apis| && JobId(apis[i].0) == k
  {
    if apis != [] {
      var init := apis[..|apis| - 1];
      RegistrationsKeys(init);
      forall k ensures k in Registrations(apis) <==> exists i :: 0 <= i < |apis| && JobId(apis[i].0) == k {
        if k in Registrations(init) {
          var i :| 0 <= i < |init| && JobId(init[i].0) == k;
          assert apis[i] == init[i];
        }
        if exists i :: 0 <= i < |apis| && JobId(apis[i].0) == k {
          var i :| 0 <= i < |apis| && JobId(apis[i].0) == k;
          if i < |init| { assert init[i] == apis[i]; }
        }
      }
    }
  }

  /**
   * The job stored for an entry that no later entry re-registers is that
   * entry's job: the last registration of an id wins.
   */
  lemma {:induction false} RegistrationsValue(apis: seq<(string, string)>, i: nat)
    requires i < |apis|
    requires forall j :: i < j < |apis| ==> apis[j].0 != apis[i].0
    ensures JobId(apis[i].0) in Registrations(apis)
    ensures Registrations(apis)[JobId(apis[i].0)] == MonitorJob(apis[i].0, apis[i].1)
  {
    var n := |apis| - 1;
    if i < n {
      var init := apis[..n];
      assert init[i] == apis[i];
      RegistrationsValue(init, i);
      if JobId(apis[n].0) == JobId(apis[i].0) {
        JobIdInjective(apis[n].0, apis[i].0);
        assert false;
      }
    }
  }

  /** The API names of the entries. */
  function Names(apis: seq<(string, string)>): set<string>
  {
    set i | 0 <= i < |apis| :: apis[i].0
  }

  lemma NamesSnoc(apis: seq<(string, string)>)
    requires apis != []
    ensures Names(apis) == Names(apis[..|apis| - 1]) + {apis[|apis| - 1].0}
  {
    var init := apis[..|apis| - 1];
    forall name | name in Names(apis) ensures name in Names(init) + {apis[|apis| - 1].0} {
      var i :| 0 <= i < |apis| && apis[i].0 == name;
      if i < |init| { assert init[i] == apis[i]; }
    }
    forall name | name in Names(init) ensures name in Names(apis) {
      var i :| 0 <= i < |init| && init[i].0 == name;
      assert apis[i] == init[i];
    }
  }

  /**
   * Registration never duplicates: there is exactly one job per distinct
   * name, however often a name is registered.
   */
  lemma {:induction false} RegistrationsPerName(apis: seq<(string, string)>)
    ensures |Registrations(apis)| == |Names(apis)|
  {
    if apis != [] {
      var n := |apis| - 1;
      var init := apis[..n];
      var name := apis[n].0;
      RegistrationsPerName(init);
      RegistrationsKeys(init);
      NamesSnoc(apis);
      if name in Names(init) {
        var i :| 0 <= i < |init| && init[i].0 == name;
        assert JobId(name) in Registrations(init);
        assert Registrations(apis).Keys == Registrations(init).Keys;
        assert |Registrations(apis)| == |Registrations(apis).Keys| == |Registrations(init).Keys| == |Registrations(init)|;
        assert Names(apis) == Names(init);
      } else {
        if JobId(name) in Registrations(init) {
          var i :| 0 <= i < |init| && JobId(init[i].0) == JobId(name);
          JobIdInjective(init[i].0, name);
          assert false;
        }
        assert Registrations(apis).Keys == Registrations(init).Keys + {JobId(name)};
      }
    }
  }

  /** The names of `apis` are pairwise distinct, as a dictionary's keys are. */
  ghost predicate DistinctNames(apis: seq<(string, string)>)
  {
    forall i, j :: 0 <= i < j < |apis| ==> apis[i].0 != apis[j].0
  }

  /** With distinct names there is exactly one job per entry. */
  lemma {:induction false} RegistrationsCount(apis: seq<(string, string)>)
    requires DistinctNames(apis)
    ensures |Registrations(apis)| == |apis|
  {
    if apis != [] {
      var n := |apis| - 1;
      var init := apis[..n];
      assert DistinctNames(init) by {
        forall i, j | 0 <= i < j < |init| ensures init[i].0 != init[j].0 {
          assert init[i] == apis[i] && init[j] == apis[j];
        }
      }
      RegistrationsCount(init);
      RegistrationsKeys(init);
      if JobId(apis[n].0) in Registrations(init) {
        var i :| 0 <= i < |init| && JobId(init[i].0) == JobId(apis[n].0);
        JobIdInjective(init[i].0, apis[n].0);
        assert false;
      }
    }
  }

  /** Registered jobs are stored under their ids and run every 10 seconds with [name, url]. */
  lemma {:induction false} RegistrationsWellFormed(apis: seq<(string, string)>)
    ensures WellFormed(Registrations(apis))
    ensures forall k :: k in Registrations(apis) ==>
              Registrations(apis)[k].trigger == Interval(MonitorIntervalSeconds) &&
              |Registrations(apis)[k].args| == 2 &&
              k == JobId(Registrations(apis)[k].args[0])
  {
    if apis != [] {
      RegistrationsWellFormed(apis[..|apis| - 1]);
    }
  }

  /** For MONITORED_APIS: exactly three jobs, one per API, with its URL. */
  lemma MonitoredApisJobs()
    ensures |Registrations(MonitoredApis)| == 3
    ensures Registrations(MonitoredApis) == map[
      "monitor_Google" := MonitorJob("Google", "https://www.google.com"),
      "monitor_GitHub" := MonitorJob("GitHub", "https://api.github.com"),
      "monitor_NonExistentAPI" := MonitorJob("NonExistentAPI", "http://this-api-does-not-exist.com")]
  {
    var a := MonitoredApis;
    assert JobId("Google") == "monitor_Google";
    assert JobId("GitHub") == "monitor_GitHub";
    assert JobId("NonExistentAPI") == "monitor_NonExistentAPI";
    assert a[..1][..0] == [];
    assert a[..2][..1] == a[..1];
    assert a[..3][..2] == a[..2];
    assert a[..3] == a;
    assert Registrations(a[..1]) == map["monitor_Google" := MonitorJob("Google", "https://www.google.com")];
    assert Registrations(a[..2]) == Registrations(a[..1])["monitor_GitHub" := MonitorJob("GitHub", "https://api.github.com")];
    assert DistinctNames(a);
    RegistrationsCount(a);
  }

  /** APScheduler's BackgroundScheduler, reduced to its job store and whether it has been started. */
  class Scheduler {
    var jobs: map<string, Job>
    var running: bool

    ghost predicate Valid()
      reads this
    {
      WellFormed(jobs)
    }

    constructor ()
      ensures Valid()
      ensures jobs == map[] && !running
    {
      jobs := map[];
      running := false;
    }

    /** `add_job(..., replace_existing=True)`: stores the job, replacing one with the same id. */
    method AddJob(job: Job)
      requires Valid()
      modifies this
      ensures Valid()
      ensures jobs == old(jobs)[job.id := job]
      ensures running == old(running)
    {
      jobs := jobs[job.id := job];
    }

    /** `start()`: raises when already running; the job store is untouched. */
    method Start() returns (res: Result<(), SchedulerError>)
      modifies this
      ensures running
      ensures jobs == old(jobs)
      ensures res.Err? <==> old(running)
    {
      if running {
        return Err(AlreadyRunning);
      }
      running := true;
      return Ok(());
    }
  }

  /** start_monitoring_jobs: registers every monitored API in dictionary order, then starts the scheduler. */
  method StartMonitoringJobs(scheduler: Scheduler) returns (res: Result<(), SchedulerError>)
    requires scheduler.Valid()
    modifies scheduler
    ensures scheduler.Valid()
    ensures scheduler.jobs == old(scheduler.jobs) + Registrations(MonitoredApis)
    ensures scheduler.running
    ensures res.Err? <==> old(scheduler.running)
  {
    for i := 0 to |MonitoredApis|
      invariant scheduler.Valid()
      invariant scheduler.jobs == old(scheduler.jobs) + Registrations(MonitoredApis[..i])
      invariant scheduler.running == old(scheduler.running)
    {
      var (name, url) := MonitoredApis[i];
      assert MonitoredApis[..i + 1][..i] == MonitoredApis[..i];
      scheduler.AddJob(MonitorJob(name, url));
    }
    assert MonitoredApis[..|MonitoredApis|] == MonitoredApis;
    res := scheduler.Start();
  }
}
