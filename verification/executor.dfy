/**
 The build executor (nci/lib/executor/base.js): how a step's command
 parameters are formed, the SCM pipeline that finds the revision to build,
 the trace a run emits, `hasScmChanges` and `cancel`.

 The SCM backend, the commands a step runs and the process-tree kill are
 not part of this model: they are oracles. SCM calls are answered from the
 log of the calls made before them, so a backend's answers may depend on
 what was done to the working copy. The hooks `_beforeRun` and `_afterRun`
 succeed in this base executor; they are parameters (`None` for success)
 because executors built on it may fail there. `_onRunError` forwards the
 error it is given.
 */
module Executor {
  import opened Text
  import opened Js
  import opened CatchRev
  import opened Spawn

  /** An executor: the project it builds (a loaded configuration), its working
      directory, its node environment and the variables its commands get. */
  datatype Executor = Executor(project: Fields, cwd: Value, env: Value, envVars: Value)

  /** The results of `_beforeRun` and `_afterRun`. */
  datatype Hooks = Hooks(beforeRun: Option<Error>, afterRun: Option<Error>)

  /** The hooks of this base executor, which always succeed. */
  const BaseHooks := Hooks(None, None)

  // ---------------------------------------------------------------------
  // _runStep

  /** `_(obj).extend(extra)`: the properties of `extra`, in order, assigned onto `obj`. */
  function Extend(obj: Fields, extra: Fields): (r: Fields)
    ensures forall k :: !Has(extra, k) ==> Lookup(r, k) == Lookup(obj, k)
    decreases |extra|
  {
    if |extra| == 0 then obj
    else Extend(Put(obj, extra[0].0, extra[0].1), extra[1..])
  }

  /** Extending with an object (whose keys are distinct) takes each of its values. */
  lemma {:induction false} ExtendTakes(obj: Fields, extra: Fields, k: string)
    requires UniqueKeys(extra) && Has(extra, k)
    ensures Lookup(Extend(obj, extra), k) == Lookup(extra, k)
    decreases |extra|
  {
    var rest := extra[1..];
    assert UniqueKeys(rest) by {
      forall i, j | 0 <= i < j < |rest| ensures rest[i].0 != rest[j].0 {
        assert rest[i] == extra[i + 1] && rest[j] == extra[j + 1];
      }
    }
    if extra[0].0 == k {
      forall i | 0 <= i < |rest| ensures rest[i].0 != k {
        assert rest[i] == extra[i + 1];
      }
      HasIndex(rest, k);
    } else {
      ExtendTakes(Put(obj, extra[0].0, extra[0].1), rest, k);
    }
  }

  /** `_(params).defaults(_(project).pick(key))` for one key: fill a missing (undefined) value from the project. */
  function DefaultFrom(params: Fields, project: Fields, key: string): (r: Fields)
    ensures Lookup(r, key) == (if Lookup(params, key) == Undefined && Has(project, key) then Lookup(project, key) else Lookup(params, key))
    ensures forall k :: k != key ==> Lookup(r, k) == Lookup(params, k)
    ensures forall k :: k != key ==> (Has(r, k) <==> Has(params, k))
    ensures UniqueKeys(params) ==> UniqueKeys(r)
  {
    if Lookup(params, key) == Undefined && Has(project, key) then
      PutUniqueAll(params, key, Lookup(project, key));
      Put(params, key, Lookup(project, key))
    else params
  }

  /** The step's own parameters over the project's shell settings. */
  function WithShellDefaults(step: Fields, project: Fields): (r: Fields)
    ensures forall k :: Lookup(r, k) == ShellDefault(step, project, k)
    ensures forall k :: !IsShellSetting(k) ==> (Has(r, k) <==> Has(step, k))
    ensures UniqueKeys(step) ==> UniqueKeys(r)
  {
    var withShell := DefaultFrom(step, project, "shell");
    var withCmdArg := DefaultFrom(withShell, project, "shellCmdArg");
    var r := DefaultFrom(withCmdArg, project, "shellExtraArgs");
    ShellDefaultsByKey(step, project, withShell, withCmdArg, r);
    r
  }

  /** The three defaults, key by key. */
  lemma ShellDefaultsByKey(step: Fields, project: Fields, withShell: Fields, withCmdArg: Fields, r: Fields)
    requires withShell == DefaultFrom(step, project, "shell")
    requires withCmdArg == DefaultFrom(withShell, project, "shellCmdArg")
    requires r == DefaultFrom(withCmdArg, project, "shellExtraArgs")
    ensures forall k :: Lookup(r, k) == ShellDefault(step, project, k)
    ensures forall k :: !IsShellSetting(k) ==> (Has(r, k) <==> Has(step, k))
  {
    forall k
      ensures Lookup(r, k) == ShellDefault(step, project, k)
    {
      if k == "shell" {
        assert Lookup(r, k) == Lookup(withCmdArg, k) == Lookup(withShell, k);
      } else if k == "shellCmdArg" {
        assert Lookup(r, k) == Lookup(withCmdArg, k);
        assert Lookup(withShell, k) == Lookup(step, k);
      } else if k == "shellExtraArgs" {
        assert Lookup(withCmdArg, k) == Lookup(withShell, k) == Lookup(step, k);
      } else {
        assert Lookup(r, k) == Lookup(withCmdArg, k) == Lookup(withShell, k) == Lookup(step, k);
      }
    }
    forall k | !IsShellSetting(k)
      ensures Has(r, k) <==> Has(step, k)
    {
      assert Has(r, k) <==> Has(withCmdArg, k);
      assert Has(withCmdArg, k) <==> Has(withShell, k);
    }
  }

  predicate IsShellSetting(k: string) {
    k == "shell" || k == "shellCmdArg" || k == "shellExtraArgs"
  }

  /** A parameter after the defaults: the project's shell setting where the step leaves it undefined. */
  function ShellDefault(step: Fields, project: Fields, k: string): Value {
    if IsShellSetting(k) && Lookup(step, k) == Undefined && Has(project, k) then Lookup(project, k) else Lookup(step, k)
  }

  /** The command a step runs: the parameters the command is created with,
      and the parameters its `run` receives. */
  datatype StepCommand = StepCommand(settings: Fields, run: Fields)

  const CommandFlags: Fields := [("emitIn", Bool(true)), ("emitOut", Bool(true)), ("emitErr", Bool(true)), ("attachStderr", Bool(true))]

  /** `_runStep(step)` up to the command it runs: any type but `shell` is refused. */
  function RunStep(x: Executor, step: Fields): (r: Result<StepCommand>)
    ensures r.Ok? <==> Lookup(step, "type") == Str("shell")
    ensures r.Err? ==> r.error == Fail("Unknown step type: " + ToJsString(Lookup(step, "type")))
  {
    var params := WithShellDefaults(step, x.project);
    var kind := Lookup(params, "type");
    assert kind == ShellDefault(step, x.project, "type") == Lookup(step, "type");
    StrictEqualsString(kind, "shell");
    if !StrictEquals(kind, Str("shell")) then Err(Fail("Unknown step type: " + ToJsString(kind)))
    else Ok(ShellCommand(x, params))
  }

  /** The shell command for the defaulted parameters: created with the output
      flags under them and the executor's `cwd`, run with its `envVars` as well. */
  function ShellCommand(x: Executor, params: Fields): StepCommand {
    var withCwd := Put(params, "cwd", x.cwd);
    StepCommand(Extend(CommandFlags, withCwd), Put(withCwd, "envVars", x.envVars))
  }

  /** The parameters a step's command runs with: the step's own values, the
      project's shell settings where the step has none, the executor's `cwd`
      (whatever the step says) and its `envVars`. */
  lemma RunStepParams(x: Executor, step: Fields, k: string)
    requires Lookup(step, "type") == Str("shell")
    ensures Lookup(RunStep(x, step).value.run, k) ==
      if k == "envVars" then x.envVars else if k == "cwd" then x.cwd else ShellDefault(step, x.project, k)
  {
  }

  /** The command is created with the executor's `cwd`, whatever the step says. */
  lemma RunStepSettingsCwd(x: Executor, step: Fields)
    requires UniqueKeys(step) && Lookup(step, "type") == Str("shell")
    ensures Lookup(RunStep(x, step).value.settings, "cwd") == x.cwd
  {
    var withCwd := Put(WithShellDefaults(step, x.project), "cwd", x.cwd);
    PutUnique(WithShellDefaults(step, x.project), "cwd", x.cwd);
    ExtendTakes(CommandFlags, withCwd, "cwd");
  }

  /** The command is created with the parameters the step runs with (`envVars` aside). */
  lemma RunStepSettingsParams(x: Executor, step: Fields, k: string)
    requires UniqueKeys(step) && Lookup(step, "type") == Str("shell")
    requires k != "cwd" && k != "envVars" && ShellDefault(step, x.project, k) != Undefined
    ensures Lookup(RunStep(x, step).value.settings, k) == ShellDefault(step, x.project, k)
  {
    var withCwd := Put(WithShellDefaults(step, x.project), "cwd", x.cwd);
    PutUnique(WithShellDefaults(step, x.project), "cwd", x.cwd);
    ExtendTakes(CommandFlags, withCwd, k);
  }

  /** Output is forwarded and stderr attached unless the step itself says otherwise. */
  lemma RunStepSettingsFlags(x: Executor, step: Fields, k: string)
    requires Lookup(step, "type") == Str("shell")
    requires Has(CommandFlags, k) && !Has(step, k)
    ensures Lookup(RunStep(x, step).value.settings, k) == Bool(true)
  {
    FlagNames(k);
    var params := WithShellDefaults(step, x.project);
    assert !Has(params, k);
    var withCwd := Put(params, "cwd", x.cwd);
    assert !Has(withCwd, k);
    assert RunStep(x, step).value.settings == Extend(CommandFlags, withCwd);
  }

  /** The output flags are set to `true`, and none is a shell setting or `cwd`. */
  lemma FlagNames(k: string)
    requires Has(CommandFlags, k)
    ensures Lookup(CommandFlags, k) == Bool(true)
    ensures !IsShellSetting(k) && k != "cwd"
  {
    HasIndex(CommandFlags, k);
    var i :| 0 <= i < |CommandFlags| && CommandFlags[i].0 == k;
    assert k in {"emitIn", "emitOut", "emitErr", "attachStderr"};
  }

  lemma PutUniqueAll(f: Fields, key: string, v: Value)
    ensures UniqueKeys(f) ==> UniqueKeys(Put(f, key, v))
  {
    if UniqueKeys(f) {
      PutUnique(f, key, v);
    }
  }

  /** Assigning a property keeps an object's keys distinct. */
  lemma {:induction false} PutUnique(f: Fields, key: string, v: Value)
    requires UniqueKeys(f)
    ensures UniqueKeys(Put(f, key, v))
    decreases |f|
  {
    var g := Put(f, key, v);
    if |f| > 0 && f[0].0 != key {
      var tail := f[1..];
      assert UniqueKeys(tail) by {
        forall i, j | 0 <= i < j < |tail| ensures tail[i].0 != tail[j].0 {
          assert tail[i] == f[i + 1] && tail[j] == f[j + 1];
        }
      }
      PutUnique(tail, key, v);
      var rest := Put(tail, key, v);
      assert g == [f[0]] + rest;
      forall i | 0 <= i < |tail| ensures tail[i].0 != f[0].0 {
        assert tail[i] == f[i + 1];
      }
      HasIndex(tail, f[0].0);
      HasIndex(rest, f[0].0);
      forall i, j | 0 <= i < j < |g| ensures g[i].0 != g[j].0 {
        if i > 0 {
          assert g[i] == rest[i - 1] && g[j] == rest[j - 1];
        } else {
          assert g[j] == rest[j - 1];
        }
      }
    } else if |f| > 0 {
      assert forall i :: 1 <= i < |g| ==> g[i] == f[i];
    }
  }

  // ---------------------------------------------------------------------
  // setParams

  /** `setParams(params)`: `env` and `envVars` are taken only when truthy. */
  function SetParams(x: Executor, params: Fields): (r: Executor)
    ensures r.project == x.project && r.cwd == x.cwd
    ensures r.env == (if Truthy(Lookup(params, "env")) then Lookup(params, "env") else x.env)
    ensures r.envVars == (if Truthy(Lookup(params, "envVars")) then Lookup(params, "envVars") else x.envVars)
  {
    var withEnv := if Truthy(Lookup(params, "env")) then x.(env := Lookup(params, "env")) else x;
    if Truthy(Lookup(params, "envVars")) then withEnv.(envVars := Lookup(params, "envVars")) else withEnv
  }

  /** Setting the same parameters again changes nothing. */
  lemma SetParamsIdempotent(x: Executor, params: Fields)
    ensures SetParams(SetParams(x, params), params) == SetParams(x, params)
  {
  }

  // ---------------------------------------------------------------------
  // The SCM pipeline: _getChanges and _getSources

  /** A call made on the SCM of the project. */
  datatype ScmCall =
    | CurrentCall
    | CloneCall(dir: Value, rev: Value)
    | PullCall(rev: Value)
    | ChangesCall(from: Option<string>, to: Value)
    | UpdateCall(rev: Value)
    | RevCall(rev: Value)

  /** The SCM backend. Every answer may depend on the calls made before it. */
  datatype Scm = Scm(
    current: seq<ScmCall> -> Result<Change>,
    revision: (seq<ScmCall>, Value) -> Result<Change>,
    changes: (seq<ScmCall>, Option<string>, Value) -> Result<seq<Change>>,
    act: (seq<ScmCall>, ScmCall) -> Option<Error>)

  /** A call that only succeeds or fails: the log it extends, or its error. */
  function Act(scm: Scm, log: seq<ScmCall>, call: ScmCall): (r: Result<seq<ScmCall>>)
    ensures r.Ok? <==> scm.act(log, call).None?
    ensures r.Ok? ==> r.value == log + [call]
    ensures r.Err? ==> r.error == scm.act(log, call).value
  {
    match scm.act(log, call)
    case Some(e) => Err(e)
    case None => Ok(log + [call])
  }

  /** The working copy made current: the revision it was at (none for a first clone) and the calls made. */
  datatype Synced = Synced(oldRev: Option<Change>, log: seq<ScmCall>)

  /** A cloned repository is pulled to `rev` after its current revision is
      noted; otherwise the repository is cloned into the executor's directory. */
  function Sync(scm: Scm, cloned: bool, cwd: Value, rev: Value): Result<Synced> {
    if cloned then
      var before :- scm.current([]);
      var log :- Act(scm, [CurrentCall], PullCall(rev));
      Ok(Synced(Some(before), log))
    else
      var log :- Act(scm, [], CloneCall(cwd, rev));
      Ok(Synced(None, log))
  }

  /** What `_getChanges` passes on: the revision the working copy was at, the target to build, the calls made. */
  datatype Fetched = Fetched(oldRev: Option<Change>, target: Target, log: seq<ScmCall>)

  /** The id the changes are listed from: `oldRev && oldRev.id`. */
  function FromId(oldRev: Option<Change>): Option<string> {
    if oldRev.Some? then Some(oldRev.value.id) else None
  }

  /** `_getChanges(params)`: sync, list the changes since the old revision, pick the target. */
  function FetchChanges(x: Executor, scm: Scm, cloned: Result<bool>, params: Value, test: Matcher): Result<Fetched> {
    var isCloned :- cloned;
    var rev := Get(params, "rev");
    var synced :- Sync(scm, isCloned, x.cwd, rev);
    var from := FromId(synced.oldRev);
    var changes :- scm.changes(synced.log, from, rev);
    var target := GetTarget(rev, changes, Lookup(x.project, "catchRev"), Get(Lookup(x.project, "scm"), "rev"), test);
    Ok(Fetched(synced.oldRev, target, synced.log + [ChangesCall(from, rev)]))
  }

  /** The `scmData` of a build: the revision checked out, the changes it covers,
      and whether it is the newest revision of the configured branch. */
  datatype Sources = Sources(rev: Change, changes: seq<Change>, isLatest: bool)

  datatype SourcesRun = SourcesRun(sources: Sources, log: seq<ScmCall>)

  /** `_getSources(params)`: update the working copy to the target, then read
      back the current revision and the newest revision of `params.rev`. The
      two reads are issued together; the first one's error is the one reported. */
  function GetSources(x: Executor, scm: Scm, cloned: Result<bool>, params: Value, test: Matcher): Result<SourcesRun> {
    var fetched :- FetchChanges(x, scm, cloned, params, test);
    var updated :- Act(scm, fetched.log, UpdateCall(fetched.target.rev));
    var current :- scm.current(updated);
    var latest :- scm.revision(updated + [CurrentCall], Get(params, "rev"));
    Ok(SourcesRun(Sources(current, fetched.target.changes, current.id == latest.id), updated + [CurrentCall, RevCall(Get(params, "rev"))]))
  }

  /** The calls a successful `_getChanges` makes, and the target it picks:
      a cloned repository is asked for its current revision, pulled and asked
      for the changes since that revision; otherwise it is cloned into the
      executor's directory and asked for all changes. The target is the
      catch-rev selection among the changes listed. */
  lemma FetchChangesCalls(x: Executor, scm: Scm, cloned: Result<bool>, params: Value, test: Matcher)
    requires FetchChanges(x, scm, cloned, params, test).Ok?
    ensures var f := FetchChanges(x, scm, cloned, params, test).value;
      var rev := Get(params, "rev");
      && cloned.Ok?
      && (cloned.value ==>
            && scm.current([]).Ok?
            && f.oldRev == Some(scm.current([]).value)
            && f.log == [CurrentCall, PullCall(rev), ChangesCall(Some(f.oldRev.value.id), rev)])
      && (!cloned.value ==> f.oldRev.None? && f.log == [CloneCall(x.cwd, rev), ChangesCall(None, rev)])
      && var listed := scm.changes(f.log[..|f.log| - 1], FromId(f.oldRev), rev);
      && listed.Ok?
      && f.target == Selected(rev, listed.value, Lookup(x.project, "catchRev"), Get(Lookup(x.project, "scm"), "rev"), test)
  {
    var f := FetchChanges(x, scm, cloned, params, test).value;
    var rev := Get(params, "rev");
    var synced := Sync(scm, cloned.value, x.cwd, rev).value;
    assert f.log[..|f.log| - 1] == synced.log;
    var listed := scm.changes(synced.log, FromId(synced.oldRev), rev);
    GetTargetIsSelected(rev, listed.value, Lookup(x.project, "catchRev"), Get(Lookup(x.project, "scm"), "rev"), test);
  }

  /** A successful `_getSources` updates the working copy to the picked
      target and nothing after that changes it; the build covers the target's
      changes, and it is the latest exactly when the revision read back has
      the id of the newest revision of the branch. */
  lemma GetSourcesCalls(x: Executor, scm: Scm, cloned: Result<bool>, params: Value, test: Matcher)
    requires GetSources(x, scm, cloned, params, test).Ok?
    ensures var r := GetSources(x, scm, cloned, params, test).value;
      var f := FetchChanges(x, scm, cloned, params, test);
      var rev := Get(params, "rev");
      && f.Ok?
      && var updated := f.value.log + [UpdateCall(f.value.target.rev)];
      && r.log == updated + [CurrentCall, RevCall(rev)]
      && r.sources.changes == f.value.target.changes
      && scm.current(updated) == Ok(r.sources.rev)
      && scm.revision(updated + [CurrentCall], rev).Ok?
      && (r.sources.isLatest <==> r.sources.rev.id == scm.revision(updated + [CurrentCall], rev).value.id)
  {
  }

  /** The first SCM call that fails ends `_getSources` with its error. */
  lemma GetSourcesStopsAtPull(x: Executor, scm: Scm, params: Value, test: Matcher)
    requires scm.current([]).Ok? && scm.act([CurrentCall], PullCall(Get(params, "rev"))).Some?
    ensures GetSources(x, scm, Ok(true), params, test) == Err(scm.act([CurrentCall], PullCall(Get(params, "rev"))).value)
  {
  }

  // ---------------------------------------------------------------------
  // run

  /** The events an executor emits during a run. `StepTimingsChange` carries
      the names of the timed steps so far, in order. */
  datatype ExecEvent =
    | CurrentStep(name: Value)
    | ScmData(sources: Sources)
    | StepTimingsChange(names: seq<Value>)
    | Data(text: string)

  /** `_listenCommand`: what a command emits becomes a `data` event. */
  function DataText(e: Emitted): string {
    match e
    case StdinEvent(t) => "> " + t
    case StdoutEvent(d) => d
    case StderrEvent(d) => "stderr: " + d
  }

  function DataEvents(emitted: seq<Emitted>): (r: seq<ExecEvent>)
    ensures |r| == |emitted|
    ensures forall i :: 0 <= i < |r| ==> r[i] == Data(DataText(emitted[i]))
  {
    seq(|emitted|, i requires 0 <= i < |emitted| => Data(DataText(emitted[i])))
  }

  /** What the command of a step does: what it emits and the error its callback gets. */
  datatype CommandRun = CommandRun(emitted: seq<Emitted>, error: Option<Error>)

  /** The commands of the steps, by position. */
  type Commands = (nat, StepCommand) -> CommandRun

  /** Everything a run depends on outside the executor. */
  datatype World = World(hooks: Hooks, cloned: Result<bool>, scm: Scm, commands: Commands, test: Matcher)

  /** A step's name (`step.name`). */
  function StepName(step: Value): Value {
    Get(step, "name")
  }

  function StepNames(steps: seq<Value>): (r: seq<Value>)
    ensures |r| == |steps|
    ensures forall i :: 0 <= i < |r| ==> r[i] == StepName(steps[i])
  {
    seq(|steps|, i requires 0 <= i < |steps| => StepName(steps[i]))
  }

  lemma StepNamesAppend(a: seq<Value>, b: seq<Value>)
    ensures StepNames(a + b) == StepNames(a) + StepNames(b)
  {
    var l, r := StepNames(a + b), StepNames(a) + StepNames(b);
    forall j | 0 <= j < |l| ensures l[j] == r[j] {
      if j < |a| {
        assert (a + b)[j] == a[j];
      } else {
        assert (a + b)[j] == b[j - |a|];
      }
    }
  }

  datatype StepsTrace = StepsTrace(events: seq<ExecEvent>, timings: seq<Value>, error: Option<Error>)

  /** One step: announce it, build its command, run it and time it. A step
      that is `undefined` or `null` fails before it is announced; one that
      is refused is announced but not timed. */
  function RunOneStep(x: Executor, step: Value, i: nat, commands: Commands, timings: seq<Value>): StepsTrace {
    if step.Undefined? || step.Null? then StepsTrace([], timings, Some(NoProperty(step, "name")))
    else
      var name := StepName(step);
      match RunStep(x, if step.Obj? then step.fields else [])
      case Err(e) => StepsTrace([CurrentStep(name)], timings, Some(e))
      case Ok(command) =>
        var out := commands(i, command);
        var timed := timings + [name];
        StepsTrace([CurrentStep(name)] + DataEvents(out.emitted) + [StepTimingsChange(timed)], timed, out.error)
  }

  /** How one step is run: from its position, the step and the timings so far. */
  type StepRunner = (nat, Value, seq<Value>) -> StepsTrace

  function StepRunnerOf(x: Executor, commands: Commands): StepRunner {
    (i: nat, step: Value, timings: seq<Value>) => RunOneStep(x, step, i, commands, timings)
  }

  /** The steps from position `i` on, each run after the one before succeeded. */
  function RunSteps(one: StepRunner, steps: seq<Value>, i: nat, timings: seq<Value>): StepsTrace
    requires i <= |steps|
    decreases |steps| - i
  {
    if i == |steps| then StepsTrace([], timings, None)
    else
      var head := one(i, steps[i], timings);
      if head.error.Some? then head
      else
        var rest := RunSteps(one, steps, i + 1, head.timings);
        StepsTrace(head.events + rest.events, rest.timings, rest.error)
  }

  const PrepareName := Str("prepare executor")
  const SourcesName := Str("get sources")
  const CleanupName := Str("cleanup executor")

  /** How a run ends: the events it emitted and the error its callback got. */
  datatype RunTrace = RunTrace(events: seq<ExecEvent>, error: Option<Error>)

  /** `run()`. An error before the steps, or a failing `_afterRun`, ends the run
      with that error; an error of a step is marked `projectStepError` and ends
      the run at once, so the cleanup hook is not called after it. */
  function Run(x: Executor, w: World): (r: RunTrace)
    ensures |r.events| > 0 && r.events[0] == CurrentStep(PrepareName)
    ensures w.hooks.beforeRun.Some? ==> r.error == w.hooks.beforeRun && |r.events| == 1
    ensures r.error.None? ==> w.hooks.beforeRun.None? && w.hooks.afterRun.None?
    ensures r.error.None? ==>
      && r.events[|r.events| - 1].StepTimingsChange?
      && |r.events[|r.events| - 1].names| > 0
      && r.events[|r.events| - 1].names[|r.events[|r.events| - 1].names| - 1] == CleanupName
  {
    if w.hooks.beforeRun.Some? then RunTrace([CurrentStep(PrepareName)], w.hooks.beforeRun)
    else RunSourced(x, w, GetSources(x, w.scm, w.cloned, Lookup(x.project, "scm"), w.test))
  }

  /** The run once the sources are fetched (or failed to be). */
  function RunSourced(x: Executor, w: World, got: Result<SourcesRun>): RunTrace {
    var sourcing := [CurrentStep(PrepareName), CurrentStep(SourcesName)];
    match got
    case Err(e) => RunTrace(sourcing, Some(e))
    case Ok(got) =>
      var sourced := sourcing + [ScmData(got.sources)];
      var steps := Lookup(x.project, "steps");
      if !steps.Arr? then
        RunTrace(sourced, Some(if steps.Undefined? || steps.Null? then NoProperty(steps, "map") else Fail("project.steps.map is not a function")))
      else Finish(w, sourced, RunSteps(StepRunnerOf(x, w.commands), steps.items, 0, [PrepareName, SourcesName]))
  }

  /** The run once the steps are done: a step error is marked and ends it;
      otherwise the cleanup hook runs and, when it succeeds, the timings are reported. */
  function Finish(w: World, sourced: seq<ExecEvent>, t: StepsTrace): RunTrace {
    var stepped := sourced + t.events;
    if t.error.Some? then RunTrace(stepped, Some(SetProp(t.error.value, "projectStepError", Bool(true))))
    else
      var cleaning := stepped + [CurrentStep(CleanupName)];
      if w.hooks.afterRun.Some? then RunTrace(cleaning, w.hooks.afterRun)
      else RunTrace(cleaning + [StepTimingsChange(t.timings + [CleanupName])], None)
  }

  /** The names announced by `currentStep` events, in order. */
  function CurrentNames(events: seq<ExecEvent>): seq<Value> {
    if |events| == 0 then []
    else CurrentNames(events[..|events| - 1]) + (if events[|events| - 1].CurrentStep? then [events[|events| - 1].name] else [])
  }

  lemma {:induction false} CurrentNamesAppend(a: seq<ExecEvent>, b: seq<ExecEvent>)
    ensures CurrentNames(a + b) == CurrentNames(a) + CurrentNames(b)
    decreases |b|
  {
    if |b| > 0 {
      assert (a + b)[..|a + b| - 1] == a + b[..|b| - 1];
      CurrentNamesAppend(a, b[..|b| - 1]);
    } else {
      assert a + b == a;
    }
  }

  lemma NoCurrentNamesInData(emitted: seq<Emitted>)
    ensures CurrentNames(DataEvents(emitted)) == []
    decreases |emitted|
  {
    if |emitted| > 0 {
      assert DataEvents(emitted)[..|emitted| - 1] == DataEvents(emitted[..|emitted| - 1]);
      NoCurrentNamesInData(emitted[..|emitted| - 1]);
    }
  }

  /** The events of one step that ran its command. */
  lemma StepHeadNames(name: Value, emitted: seq<Emitted>, timed: seq<Value>)
    ensures CurrentNames([CurrentStep(name)] + DataEvents(emitted) + [StepTimingsChange(timed)]) == [name]
  {
    CurrentNamesAppend([CurrentStep(name)] + DataEvents(emitted), [StepTimingsChange(timed)]);
    CurrentNamesAppend([CurrentStep(name)], DataEvents(emitted));
    NoCurrentNamesInData(emitted);
    CurrentNamesOne(CurrentStep(name));
    CurrentNamesOne(StepTimingsChange(timed));
  }

  lemma CurrentNamesOne(e: ExecEvent)
    ensures CurrentNames([e]) == if e.CurrentStep? then [e.name] else []
  {
    assert [e][..0] == [];
  }

  /** The lists the `stepTimingsChange` events carry, in order. */
  function TimingLists(events: seq<ExecEvent>): seq<seq<Value>> {
    if |events| == 0 then []
    else TimingLists(events[..|events| - 1]) + (if events[|events| - 1].StepTimingsChange? then [events[|events| - 1].names] else [])
  }

  lemma {:induction false} TimingListsAppend(a: seq<ExecEvent>, b: seq<ExecEvent>)
    ensures TimingLists(a + b) == TimingLists(a) + TimingLists(b)
    decreases |b|
  {
    if |b| > 0 {
      assert (a + b)[..|a + b| - 1] == a + b[..|b| - 1];
      TimingListsAppend(a, b[..|b| - 1]);
    } else {
      assert a + b == a;
    }
  }

  lemma TimingListsOne(e: ExecEvent)
    ensures TimingLists([e]) == if e.StepTimingsChange? then [e.names] else []
  {
    assert [e][..0] == [];
  }

  lemma NoTimingListsInData(emitted: seq<Emitted>)
    ensures TimingLists(DataEvents(emitted)) == []
    decreases |emitted|
  {
    if |emitted| > 0 {
      assert DataEvents(emitted)[..|emitted| - 1] == DataEvents(emitted[..|emitted| - 1]);
      NoTimingListsInData(emitted[..|emitted| - 1]);
    }
  }

  /** The events of one step that ran its command report the timings once. */
  lemma StepHeadReports(name: Value, emitted: seq<Emitted>, timed: seq<Value>)
    ensures TimingLists([CurrentStep(name)] + DataEvents(emitted) + [StepTimingsChange(timed)]) == [timed]
  {
    TimingListsAppend([CurrentStep(name)] + DataEvents(emitted), [StepTimingsChange(timed)]);
    TimingListsAppend([CurrentStep(name)], DataEvents(emitted));
    NoTimingListsInData(emitted);
    TimingListsOne(CurrentStep(name));
    TimingListsOne(StepTimingsChange(timed));
  }

  /** What one step contributes: it announces itself unless it is
      `undefined` or `null` (which fails), and when it succeeds it is timed
      and reports the timings once. */
  predicate StepSound(h: StepsTrace, step: Value, timings: seq<Value>) {
    && CurrentNames(h.events) == (if step.Undefined? || step.Null? then [] else [StepName(step)])
    && (h.error.None? ==> h.timings == timings + [StepName(step)])
    && (h.error.None? ==> TimingLists(h.events) == [timings + [StepName(step)]])
    && ((step.Undefined? || step.Null?) ==> h.error.Some?)
  }

  ghost predicate RunnerSound(one: StepRunner) {
    forall i, step, timings :: StepSound(one(i, step, timings), step, timings)
  }

  lemma RunOneStepSound(x: Executor, step: Value, i: nat, commands: Commands, timings: seq<Value>)
    ensures StepSound(RunOneStep(x, step, i, commands, timings), step, timings)
  {
    if !(step.Undefined? || step.Null?) {
      var name := StepName(step);
      match RunStep(x, if step.Obj? then step.fields else [])
      case Err(e) =>
        CurrentNamesOne(CurrentStep(name));
      case Ok(command) =>
        var out := commands(i, command);
        StepHeadNames(name, out.emitted, timings + [name]);
        StepHeadReports(name, out.emitted, timings + [name]);
    }
  }

  /** Every step of an executor announces itself and is timed when it succeeds. */
  lemma StepRunnerSound(x: Executor, commands: Commands)
    ensures RunnerSound(StepRunnerOf(x, commands))
  {
    forall i: nat, step, timings ensures StepSound(StepRunnerOf(x, commands)(i, step, timings), step, timings) {
      RunOneStepSound(x, step, i, commands, timings);
    }
  }

  /** The events before the steps announce the two preparation phases. */
  lemma SourcedNames(sources: Sources)
    ensures CurrentNames([CurrentStep(PrepareName), CurrentStep(SourcesName), ScmData(sources)]) == [PrepareName, SourcesName]
  {
    CurrentNamesOne(CurrentStep(PrepareName));
    CurrentNamesOne(CurrentStep(SourcesName));
    CurrentNamesOne(ScmData(sources));
    CurrentNamesAppend([CurrentStep(PrepareName)], [CurrentStep(SourcesName)]);
    assert [CurrentStep(PrepareName)] + [CurrentStep(SourcesName)] == [CurrentStep(PrepareName), CurrentStep(SourcesName)];
    CurrentNamesAppend([CurrentStep(PrepareName), CurrentStep(SourcesName)], [ScmData(sources)]);
    assert [CurrentStep(PrepareName), CurrentStep(SourcesName)] + [ScmData(sources)] ==
      [CurrentStep(PrepareName), CurrentStep(SourcesName), ScmData(sources)];
  }

  /** Steps that all succeed announce every step, in order. */
  lemma {:induction false} RunStepsAnnounce(one: StepRunner, steps: seq<Value>, i: nat, timings: seq<Value>)
    requires RunnerSound(one)
    requires i <= |steps|
    requires RunSteps(one, steps, i, timings).error.None?
    ensures CurrentNames(RunSteps(one, steps, i, timings).events) == StepNames(steps[i..])
    decreases |steps| - i
  {
    if i == |steps| {
      assert steps[i..] == [];
    } else {
      var step := steps[i];
      var head := one(i, step, timings);
      assert StepSound(head, step, timings);
      var rest := RunSteps(one, steps, i + 1, head.timings);
      RunStepsAnnounce(one, steps, i + 1, head.timings);
      NamesCons(steps, i);
      NamesConcat(head.events, rest.events, [StepName(step)], StepNames(steps[i + 1..]));
    }
  }

  /** Steps that all succeed are all timed, in order. */
  lemma {:induction false} RunStepsTimed(one: StepRunner, steps: seq<Value>, i: nat, timings: seq<Value>)
    requires RunnerSound(one)
    requires i <= |steps|
    requires RunSteps(one, steps, i, timings).error.None?
    ensures RunSteps(one, steps, i, timings).timings == timings + StepNames(steps[i..])
    decreases |steps| - i
  {
    if i == |steps| {
      assert steps[i..] == [];
    } else {
      var step := steps[i];
      var head := one(i, step, timings);
      assert StepSound(head, step, timings);
      RunStepsTimed(one, steps, i + 1, head.timings);
      NamesCons(steps, i);
    }
  }

  /** Steps that all succeed report the timings after each step: the `k`-th
      report holds the earlier timings followed by the steps up to the `k`-th. */
  lemma {:induction false} RunStepsReported(one: StepRunner, steps: seq<Value>, i: nat, timings: seq<Value>)
    requires RunnerSound(one)
    requires i <= |steps|
    requires RunSteps(one, steps, i, timings).error.None?
    ensures var reports := TimingLists(RunSteps(one, steps, i, timings).events);
      && |reports| == |steps| - i
      && forall k :: 0 <= k < |reports| ==> reports[k] == timings + StepNames(steps[i..i + k + 1])
    decreases |steps| - i
  {
    if i < |steps| {
      var step := steps[i];
      var head := one(i, step, timings);
      assert StepSound(head, step, timings);
      var rest := RunSteps(one, steps, i + 1, head.timings);
      assert RunSteps(one, steps, i, timings).events == head.events + rest.events;
      RunStepsReported(one, steps, i + 1, head.timings);
      TimingListsAppend(head.events, rest.events);
      var reports := TimingLists(RunSteps(one, steps, i, timings).events);
      assert reports == [timings + [StepName(step)]] + TimingLists(rest.events);
      forall k | 0 <= k < |reports| ensures reports[k] == timings + StepNames(steps[i..i + k + 1]) {
        ReportAt(steps, i, k, timings);
      }
    }
  }

  /** The report after step `i + k` is the timings after step `i` followed by the steps up to `i + k`. */
  lemma ReportAt(steps: seq<Value>, i: nat, k: nat, timings: seq<Value>)
    requires i + k < |steps|
    ensures k == 0 ==> timings + [StepName(steps[i])] == timings + StepNames(steps[i..i + 1])
    ensures k > 0 ==> (timings + [StepName(steps[i])]) + StepNames(steps[i + 1..i + 1 + (k - 1) + 1]) == timings + StepNames(steps[i..i + k + 1])
  {
    SliceCons(steps, i, i + k + 1);
    StepNamesAppend([steps[i]], steps[i + 1..i + k + 1]);
    assert StepNames([steps[i]]) == [StepName(steps[i])];
    if k == 0 {
      assert steps[i + 1..i + k + 1] == [];
    }
  }

  lemma NamesCons(steps: seq<Value>, i: nat)
    requires i < |steps|
    ensures StepNames(steps[i..]) == [StepName(steps[i])] + StepNames(steps[i + 1..])
  {
    SliceCons(steps, i, |steps|);
    assert steps[i..|steps|] == steps[i..];
    StepNamesAppend([steps[i]], steps[i + 1..]);
    assert StepNames([steps[i]]) == [StepName(steps[i])];
  }

  lemma NamesConcat(a: seq<ExecEvent>, b: seq<ExecEvent>, na: seq<Value>, nb: seq<Value>)
    requires CurrentNames(a) == na && CurrentNames(b) == nb
    ensures CurrentNames(a + b) == na + nb
  {
    CurrentNamesAppend(a, b);
  }

  /** Where the announced steps end when step `k` fails: after it, unless it is `undefined` or `null`. */
  function Announced(steps: seq<Value>, k: nat): nat
    requires k < |steps|
  {
    if steps[k].Undefined? || steps[k].Null? then k else k + 1
  }

  /** When a step fails, the steps announced are the ones before it and,
      unless it is `undefined` or `null`, the failing step itself; `k` is the failing step. */
  lemma {:induction false} RunStepsFail(one: StepRunner, steps: seq<Value>, i: nat, timings: seq<Value>) returns (k: nat)
    requires RunnerSound(one)
    requires i <= |steps|
    requires RunSteps(one, steps, i, timings).error.Some?
    ensures i <= k < |steps|
    ensures CurrentNames(RunSteps(one, steps, i, timings).events) == StepNames(steps[i..Announced(steps, k)])
    decreases |steps| - i
  {
    var step := steps[i];
    var head := one(i, step, timings);
    assert StepSound(head, step, timings);
    if head.error.Some? {
      k := i;
      FailHere(one, steps, i, timings, head);
    } else {
      k := RunStepsFail(one, steps, i + 1, head.timings);
      FailLater(one, steps, i, timings, head, k);
    }
  }

  /** The step at `i` fails: it alone is announced, unless it is `undefined` or `null`. */
  lemma FailHere(one: StepRunner, steps: seq<Value>, i: nat, timings: seq<Value>, head: StepsTrace)
    requires i < |steps| && head == one(i, steps[i], timings)
    requires StepSound(head, steps[i], timings) && head.error.Some?
    ensures CurrentNames(RunSteps(one, steps, i, timings).events) == StepNames(steps[i..Announced(steps, i)])
  {
    var step := steps[i];
    assert RunSteps(one, steps, i, timings) == head;
    if step.Undefined? || step.Null? {
      assert steps[i..Announced(steps, i)] == [];
    } else {
      assert steps[i..Announced(steps, i)] == [step];
      assert StepNames([step]) == [StepName(step)];
    }
  }

  /** The step at `i` succeeds and step `k` fails: the step is announced before those that follow it. */
  lemma FailLater(one: StepRunner, steps: seq<Value>, i: nat, timings: seq<Value>, head: StepsTrace, k: nat)
    requires i < k < |steps| && head == one(i, steps[i], timings)
    requires StepSound(head, steps[i], timings) && head.error.None?
    requires CurrentNames(RunSteps(one, steps, i + 1, head.timings).events) == StepNames(steps[i + 1..Announced(steps, k)])
    ensures CurrentNames(RunSteps(one, steps, i, timings).events) == StepNames(steps[i..Announced(steps, k)])
  {
    var step := steps[i];
    var rest := RunSteps(one, steps, i + 1, head.timings);
    assert RunSteps(one, steps, i, timings).events == head.events + rest.events;
    var m := Announced(steps, k);
    assert CurrentNames(head.events) == [StepName(step)];
    NamesConcat(head.events, rest.events, [StepName(step)], StepNames(steps[i + 1..m]));
    SliceCons(steps, i, m);
    StepNamesAppend([step], steps[i + 1..m]);
    assert StepNames([step]) == [StepName(step)];
  }

  lemma SliceCons<T>(s: seq<T>, i: nat, m: nat)
    requires i < m <= |s|
    ensures s[i..m] == [s[i]] + s[i + 1..m]
  {
  }

  /** A successful run announces "prepare executor", "get sources", every
      step in order and "cleanup executor", and ends by reporting the timings
      of exactly those, in the same order. Before that it reported the
      timings after every step: the preparation phases and the steps up to
      that one. */
  lemma RunSuccessTrace(x: Executor, w: World)
    requires Run(x, w).error.None?
    ensures var r := Run(x, w);
      var steps := Lookup(x.project, "steps");
      var names := [PrepareName, SourcesName] + StepNames(steps.items) + [CleanupName];
      && w.hooks.beforeRun.None? && w.hooks.afterRun.None?
      && steps.Arr?
      && CurrentNames(r.events) == names
      && |r.events| > 0 && r.events[|r.events| - 1] == StepTimingsChange(names)
    ensures var r := Run(x, w);
      var steps := Lookup(x.project, "steps").items;
      var reports := TimingLists(r.events);
      && |reports| == |steps| + 1
      && (forall k :: 0 <= k < |steps| ==> reports[k] == [PrepareName, SourcesName] + StepNames(steps[..k + 1]))
      && reports[|steps|] == [PrepareName, SourcesName] + StepNames(steps) + [CleanupName]
  {
    var r := Run(x, w);
    var got := GetSources(x, w.scm, w.cloned, Lookup(x.project, "scm"), w.test);
    assert r == RunSourced(x, w, got);
    assert got.Ok?;
    var steps := Lookup(x.project, "steps");
    assert steps.Arr?;
    var sourced := [CurrentStep(PrepareName), CurrentStep(SourcesName)] + [ScmData(got.value.sources)];
    var one := StepRunnerOf(x, w.commands);
    var t := RunSteps(one, steps.items, 0, [PrepareName, SourcesName]);
    assert r == Finish(w, sourced, t);
    StepRunnerSound(x, w.commands);
    FinishTrace(w, got.value.sources, one, steps.items);
  }

  /** The end of a run whose sources were fetched: the names announced and
      the timings reported when every step and the cleanup succeed. */
  lemma FinishTrace(w: World, sources: Sources, one: StepRunner, steps: seq<Value>)
    requires RunnerSound(one)
    requires Finish(w, [CurrentStep(PrepareName), CurrentStep(SourcesName)] + [ScmData(sources)],
      RunSteps(one, steps, 0, [PrepareName, SourcesName])).error.None?
    ensures var r := Finish(w, [CurrentStep(PrepareName), CurrentStep(SourcesName)] + [ScmData(sources)],
        RunSteps(one, steps, 0, [PrepareName, SourcesName]));
      var names := [PrepareName, SourcesName] + StepNames(steps) + [CleanupName];
      && w.hooks.afterRun.None?
      && CurrentNames(r.events) == names
      && |r.events| > 0 && r.events[|r.events| - 1] == StepTimingsChange(names)
    ensures var r := Finish(w, [CurrentStep(PrepareName), CurrentStep(SourcesName)] + [ScmData(sources)],
        RunSteps(one, steps, 0, [PrepareName, SourcesName]));
      var reports := TimingLists(r.events);
      && |reports| == |steps| + 1
      && (forall k :: 0 <= k < |steps| ==> reports[k] == [PrepareName, SourcesName] + StepNames(steps[..k + 1]))
      && reports[|steps|] == [PrepareName, SourcesName] + StepNames(steps) + [CleanupName]
  {
    var sourced := [CurrentStep(PrepareName), CurrentStep(SourcesName)] + [ScmData(sources)];
    var t := RunSteps(one, steps, 0, [PrepareName, SourcesName]);
    var r := Finish(w, sourced, t);
    FinishSuccess(w, sourced, t);
    RunStepsAnnounce(one, steps, 0, [PrepareName, SourcesName]);
    RunStepsTimed(one, steps, 0, [PrepareName, SourcesName]);
    assert steps[0..] == steps;
    SourcedNames(sources);
    assert sourced == [CurrentStep(PrepareName), CurrentStep(SourcesName), ScmData(sources)];
    RunStepsReported(one, steps, 0, [PrepareName, SourcesName]);
    SourcedReports(sources);
    ReportsOfRun(TimingLists(r.events), TimingLists(t.events), steps, t.timings + [CleanupName]);
  }

  /** The events before the steps report no timings. */
  lemma SourcedReports(sources: Sources)
    ensures TimingLists([CurrentStep(PrepareName), CurrentStep(SourcesName)] + [ScmData(sources)]) == []
  {
    TimingListsAppend([CurrentStep(PrepareName)], [CurrentStep(SourcesName)]);
    assert [CurrentStep(PrepareName)] + [CurrentStep(SourcesName)] == [CurrentStep(PrepareName), CurrentStep(SourcesName)];
    TimingListsAppend([CurrentStep(PrepareName), CurrentStep(SourcesName)], [ScmData(sources)]);
    TimingListsOne(CurrentStep(PrepareName));
    TimingListsOne(CurrentStep(SourcesName));
    TimingListsOne(ScmData(sources));
  }

  /** The reports of a run: those of the steps, then the final one. */
  lemma ReportsOfRun(reports: seq<seq<Value>>, stepped: seq<seq<Value>>, steps: seq<Value>, last: seq<Value>)
    requires reports == stepped + [last]
    requires |stepped| == |steps|
    requires forall k :: 0 <= k < |stepped| ==> stepped[k] == [PrepareName, SourcesName] + StepNames(steps[0..0 + k + 1])
    ensures |reports| == |steps| + 1 && reports[|steps|] == last
    ensures forall k :: 0 <= k < |steps| ==> reports[k] == [PrepareName, SourcesName] + StepNames(steps[..k + 1])
  {
    forall k | 0 <= k < |steps| ensures reports[k] == [PrepareName, SourcesName] + StepNames(steps[..k + 1]) {
      assert reports[k] == stepped[k];
      assert steps[0..0 + k + 1] == steps[..k + 1];
    }
  }

  /** The end of a run whose steps all succeeded. */
  lemma FinishSuccess(w: World, sourced: seq<ExecEvent>, t: StepsTrace)
    requires Finish(w, sourced, t).error.None?
    ensures t.error.None? && w.hooks.afterRun.None?
    ensures var r := Finish(w, sourced, t);
      && CurrentNames(r.events) == CurrentNames(sourced) + CurrentNames(t.events) + [CleanupName]
      && |r.events| > 0 && r.events[|r.events| - 1] == StepTimingsChange(t.timings + [CleanupName])
      && TimingLists(r.events) == TimingLists(sourced) + TimingLists(t.events) + [t.timings + [CleanupName]]
  {
    var stepped := sourced + t.events;
    var cleaning := stepped + [CurrentStep(CleanupName)];
    var last := StepTimingsChange(t.timings + [CleanupName]);
    CurrentNamesAppend(sourced, t.events);
    CurrentNamesAppend(stepped, [CurrentStep(CleanupName)]);
    CurrentNamesAppend(cleaning, [last]);
    CurrentNamesOne(CurrentStep(CleanupName));
    CurrentNamesOne(last);
    TimingListsAppend(sourced, t.events);
    TimingListsAppend(stepped, [CurrentStep(CleanupName)]);
    TimingListsAppend(cleaning, [last]);
    TimingListsOne(CurrentStep(CleanupName));
    TimingListsOne(last);
  }

  /** A failing step ends the run with its own error, marked as a step error. */
  lemma RunStepFailure(x: Executor, w: World)
    requires w.hooks.beforeRun.None?
    requires GetSources(x, w.scm, w.cloned, Lookup(x.project, "scm"), w.test).Ok?
    requires Lookup(x.project, "steps").Arr?
    requires RunSteps(StepRunnerOf(x, w.commands), Lookup(x.project, "steps").items, 0, [PrepareName, SourcesName]).error.Some?
    ensures var r := Run(x, w);
      var e := RunSteps(StepRunnerOf(x, w.commands), Lookup(x.project, "steps").items, 0, [PrepareName, SourcesName]).error.value;
      && r.error == Some(SetProp(e, "projectStepError", Bool(true)))
      && r.error.value.message == e.message
      && Lookup(r.error.value.props, "projectStepError") == Bool(true)
  {
    var got := GetSources(x, w.scm, w.cloned, Lookup(x.project, "scm"), w.test);
    assert Run(x, w) == RunSourced(x, w, got);
  }

  /** After a failing step the steps announced are the first `k` of the
      project's, and the cleanup phase is never announced. */
  lemma RunStepFailureTrace(x: Executor, w: World) returns (k: nat)
    requires w.hooks.beforeRun.None?
    requires GetSources(x, w.scm, w.cloned, Lookup(x.project, "scm"), w.test).Ok?
    requires Lookup(x.project, "steps").Arr?
    requires RunSteps(StepRunnerOf(x, w.commands), Lookup(x.project, "steps").items, 0, [PrepareName, SourcesName]).error.Some?
    ensures k <= |Lookup(x.project, "steps").items|
    ensures CurrentNames(Run(x, w).events) == [PrepareName, SourcesName] + StepNames(Lookup(x.project, "steps").items[..k])
  {
    var r := Run(x, w);
    var got := GetSources(x, w.scm, w.cloned, Lookup(x.project, "scm"), w.test);
    assert r == RunSourced(x, w, got);
    var steps := Lookup(x.project, "steps").items;
    var sourced := [CurrentStep(PrepareName), CurrentStep(SourcesName)] + [ScmData(got.value.sources)];
    assert sourced == [CurrentStep(PrepareName), CurrentStep(SourcesName), ScmData(got.value.sources)];
    var one := StepRunnerOf(x, w.commands);
    var t := RunSteps(one, steps, 0, [PrepareName, SourcesName]);
    assert r == Finish(w, sourced, t);
    StepRunnerSound(x, w.commands);
    var failed := RunStepsFail(one, steps, 0, [PrepareName, SourcesName]);
    k := Announced(steps, failed);
    assert steps[0..k] == steps[..k];
    SourcedNames(got.value.sources);
    NamesConcat(sourced, t.events, [PrepareName, SourcesName], StepNames(steps[..k]));
  }

  /** After a failing step the cleanup phase is not announced (unless a step bears its name). */
  lemma RunStepFailureNoCleanup(x: Executor, w: World)
    requires w.hooks.beforeRun.None?
    requires GetSources(x, w.scm, w.cloned, Lookup(x.project, "scm"), w.test).Ok?
    requires Lookup(x.project, "steps").Arr?
    requires RunSteps(StepRunnerOf(x, w.commands), Lookup(x.project, "steps").items, 0, [PrepareName, SourcesName]).error.Some?
    requires CleanupName !in StepNames(Lookup(x.project, "steps").items)
    ensures CleanupName !in CurrentNames(Run(x, w).events)
  {
    var steps := Lookup(x.project, "steps").items;
    var k := RunStepFailureTrace(x, w);
    forall j | 0 <= j < k ensures StepNames(steps[..k])[j] != CleanupName {
      assert StepNames(steps[..k])[j] == StepNames(steps)[j];
    }
  }

  /** A failing `_beforeRun` ends the run at once with its own error, unmarked. */
  lemma RunBeforeRunFailure(x: Executor, w: World)
    requires w.hooks.beforeRun.Some?
    ensures Run(x, w) == RunTrace([CurrentStep(PrepareName)], w.hooks.beforeRun)
  {
  }

  // ---------------------------------------------------------------------
  // hasScmChanges

  /** What `hasScmChanges` calls back with: an error, and whether there is
      something new to build (absent when the callback gets no answer). */
  datatype ScmAnswer = ScmAnswer(error: Option<Error>, changed: Option<bool>)

  /** `hasScmChanges()`: a repository not cloned yet always has something to
      build; otherwise there is something new when the catch-rev target covers
      at least one change. */
  function HasScmChanges(x: Executor, w: World): (a: ScmAnswer)
    ensures a.error.None? ==> a.changed.Some?
    ensures w.hooks.beforeRun.Some? ==> a == ScmAnswer(w.hooks.beforeRun, None)
    ensures w.hooks.beforeRun.None? && w.cloned.Err? ==> a == ScmAnswer(Some(w.cloned.error), None)
    ensures w.hooks == BaseHooks && w.cloned == Ok(false) ==> a == ScmAnswer(None, Some(true))
  {
    if w.hooks.beforeRun.Some? then ScmAnswer(w.hooks.beforeRun, None)
    else if w.cloned.Err? then ScmAnswer(Some(w.cloned.error), None)
    else
      var found: Result<nat> :=
        if w.cloned.value then
          match FetchChanges(x, w.scm, w.cloned, Lookup(x.project, "scm"), w.test)
          case Ok(f) => Ok(|f.target.changes|)
          case Err(e) => Err(e)
        else Ok(1);
      match found
      case Err(e) => ScmAnswer(Some(e), None)
      case Ok(n) =>
        if w.hooks.afterRun.Some? then ScmAnswer(w.hooks.afterRun, Some(false))
        else ScmAnswer(None, Some(n > 0))
  }

  /** With hooks that succeed, the answer is an error of the SCM or: not
      cloned yet, or the target covers some change. Nothing is asked of an
      uncloned repository. */
  lemma HasScmChangesAnswer(x: Executor, w: World)
    requires w.hooks == BaseHooks
    ensures var a := HasScmChanges(x, w);
      var f := FetchChanges(x, w.scm, w.cloned, Lookup(x.project, "scm"), w.test);
      && (a.error.None? <==> f.Ok? || w.cloned == Ok(false))
      && (a.error.None? ==> a.changed == Some(w.cloned == Ok(false) || |f.value.target.changes| > 0))
      && (a.error.Some? ==> a.changed.None? && f.Err? && a.error == Some(f.error))
  {
  }

  // ---------------------------------------------------------------------
  // cancel

  /** What `cancel` calls back with, and whether it marked the executor canceled. */
  datatype CancelOutcome = CancelOutcome(error: Option<Error>, canceled: bool)

  /** `cancel()`: kill the process tree of the current command. `kill` is the tree kill of a pid. */
  function Cancel(currentCmd: Value, kill: Value -> Option<Error>): (o: CancelOutcome)
    ensures o.canceled <==> o.error.None?
    ensures o.canceled ==> Truthy(currentCmd) && Truthy(Get(currentCmd, "pid"))
    ensures Truthy(currentCmd) && Truthy(Get(currentCmd, "pid")) ==>
      o.error == kill(Get(currentCmd, "pid"))
  {
    if !Truthy(currentCmd) then CancelOutcome(Some(Fail("Can`t cancel build: no current cmd")), false)
    else if !Truthy(Get(currentCmd, "pid")) then CancelOutcome(Some(Fail("Can`t cancel build: current cmd doesn`t have pid")), false)
    else
      match kill(Get(currentCmd, "pid"))
      case Some(e) => CancelOutcome(Some(e), false)
      case None => CancelOutcome(None, true)
  }

  /** A build is marked canceled exactly when there is a current command with
      a pid and killing its tree succeeded; otherwise the reason is reported. */
  lemma CancelOutcomes(currentCmd: Value, kill: Value -> Option<Error>)
    ensures var o := Cancel(currentCmd, kill);
      && (o.canceled <==> Truthy(currentCmd) && Truthy(Get(currentCmd, "pid")) && kill(Get(currentCmd, "pid")).None?)
      && (o.canceled <==> o.error.None?)
      && (!Truthy(currentCmd) ==> o.error == Some(Fail("Can`t cancel build: no current cmd")))
      && (Truthy(currentCmd) && !Truthy(Get(currentCmd, "pid")) ==>
            o.error == Some(Fail("Can`t cancel build: current cmd doesn`t have pid")))
  {
  }
}
