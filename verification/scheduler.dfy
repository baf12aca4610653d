/**
 The build scheduler (nci-scheduler/lib/index.js): a job per loaded project
 whose configuration has `buildEvery.time`, started when the registry emits
 `projectLoaded` and stopped when it emits `projectUnloaded`. The cron timer
 itself is not modelled; a job records its schedule and what each tick asks
 the build queue for.
 */
module Scheduler {
  import opened Js
  import Registry
  import RestApi

  /** A running cron job: its schedule and the project it builds. */
  datatype Job = Job(cronTime: Value, projectName: string, withScmChangesOnly: Value)

  /** `projectJobs`, keyed by project name. */
  type Jobs = map<string, Job>

  /** What a tick asks `app.builds.create` for. */
  datatype ScheduledBuild = ScheduledBuild(projectName: string, withScmChangesOnly: Value, initiator: string)

  /** `project.buildEvery && project.buildEvery.time`. */
  function ScheduleTime(project: Fields): Value {
    var every := Lookup(project, "buildEvery");
    if !Truthy(every) then every else Get(every, "time")
  }

  /** Whether loading `project` starts a job: a schedule is set and the project is not archived. */
  predicate Scheduled(project: Fields) {
    Truthy(ScheduleTime(project)) && !Truthy(Lookup(project, "archived"))
  }

  /** The `projectLoaded` handler. */
  function OnLoaded(jobs: Jobs, project: Fields): (r: Jobs)
    ensures Scheduled(project) ==> r.Keys == jobs.Keys + {Registry.NameOf(project)}
    ensures Scheduled(project) ==> forall n :: n in jobs && n != Registry.NameOf(project) ==> r[n] == jobs[n]
    ensures Scheduled(project) ==> r[Registry.NameOf(project)].cronTime == ScheduleTime(project)
    ensures Scheduled(project) ==> r[Registry.NameOf(project)].projectName == Registry.NameOf(project)
    ensures !Scheduled(project) ==> r == jobs
  {
    if Scheduled(project) then
      var name := Registry.NameOf(project);
      jobs[name := Job(ScheduleTime(project), name, Get(Lookup(project, "buildEvery"), "withScmChangesOnly"))]
    else jobs
  }

  /** The `projectUnloaded` handler: stop and forget the project's job, if it has one. */
  function OnUnloaded(jobs: Jobs, project: Fields): (r: Jobs)
    ensures r.Keys == jobs.Keys - {Registry.NameOf(project)}
    ensures forall n :: n in r ==> r[n] == jobs[n]
  {
    var name := Registry.NameOf(project);
    if name in jobs then jobs - {name} else jobs
  }

  /** The jobs after the registry emitted `events`, in order. */
  function Apply(jobs: Jobs, events: seq<Registry.Event>): Jobs
    decreases |events|
  {
    if |events| == 0 then jobs
    else
      var next := match events[0]
        case ProjectLoaded(c) => OnLoaded(jobs, c)
        case ProjectUnloaded(c) => OnUnloaded(jobs, c);
      Apply(next, events[1..])
  }

  /** `onTick`: a build of the job's project, initiated by the scheduler. */
  function Tick(job: Job): (b: ScheduledBuild)
    ensures b.projectName == job.projectName && b.initiator == "scheduler"
  {
    ScheduledBuild(job.projectName, job.withScmChangesOnly, "scheduler")
  }

  /** Jobs exist only for projects that were loaded and not unloaded since:
      when the events are a valid history of the loaded names, the jobs stay
      within the loaded names. */
  lemma {:induction false} JobsFollowEvents(jobs: Jobs, names: set<string>, events: seq<Registry.Event>)
    requires jobs.Keys <= names
    requires Registry.Replay(names, events).Some?
    ensures Apply(jobs, events).Keys <= Registry.Replay(names, events).value
    decreases |events|
  {
    if |events| > 0 {
      match events[0]
      case ProjectLoaded(c) =>
        JobsFollowEvents(OnLoaded(jobs, c), names + {Registry.NameOf(c)}, events[1..]);
      case ProjectUnloaded(c) =>
        JobsFollowEvents(OnUnloaded(jobs, c), names - {Registry.NameOf(c)}, events[1..]);
    }
  }

  /** Loading a project and unloading it again leaves the jobs as they were. */
  lemma LoadThenUnload(jobs: Jobs, project: Fields)
    requires Registry.NameOf(project) !in jobs
    ensures Apply(jobs, [Registry.ProjectLoaded(project), Registry.ProjectUnloaded(project)]) == jobs
  {
    var e := [Registry.ProjectLoaded(project), Registry.ProjectUnloaded(project)];
    assert e[1..] == [Registry.ProjectUnloaded(project)];
    assert e[1..][1..] == [];
    var loaded := OnLoaded(jobs, project);
    var unloaded := OnUnloaded(loaded, project);
    assert unloaded.Keys == jobs.Keys;
    assert forall n :: n in unloaded ==> unloaded[n] == jobs[n];
    assert unloaded == jobs;
    assert Apply(loaded, e[1..]) == Apply(unloaded, []);
  }

  /** Through any API request, the jobs stay within the loaded projects. */
  lemma JobsFollowApi(host: RestApi.Host, st: Registry.State, jobs: Jobs, req: RestApi.Request)
    requires Registry.WellFormed(host.env, st)
    requires jobs.Keys <= Registry.Names(st.configs)
    ensures var r := RestApi.Handle(host, st, req);
      Apply(jobs, r.events).Keys <= Registry.Names(r.state.configs)
  {
    RestApi.HandleSound(host, st, req);
    var r := RestApi.Handle(host, st, req);
    JobsFollowEvents(jobs, Registry.Names(st.configs), r.events);
  }
}
