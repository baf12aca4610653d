# nci core, modelled in Dafny

This project models the sequential logic at the heart of the nci continuous-integration
engine and its plugins, as pure functions over immutable data, and proves what that
logic promises.

- **Project registry** (`ProjectsCollection`, module `Registry`). The state is three things: the
  loaded configurations in order, the names whose load is in flight (`loadingProjectsHash`), and
  the two directory areas, `baseDir` and `archiveDir`. It models `load`, `loadAll`, `unload`,
  archive/unarchive, `reload`, `get`/`getAll`/`filter`, `remove`, `rename`, `create` and
  `setConfig`, each as a guarded transition that yields a new state, the `projectLoaded` /
  `projectUnloaded` events it emits, and an error. The in-flight test looks only at the names
  actually recorded; the code's test on a plain object also answers for the property names of
  `Object.prototype`, which the Findings section records. Two supporting modules cover the
  configuration itself:
  - `Schema`: validation against the configuration schema, with the error prefix that names the
    project;
  - `Normalize`: the conversion of a dictionary of steps to a list, and the step defaults.
- **Build executor** (`Executor`, `CatchRev`):
  - the catch-rev target selection `_getTarget`;
  - the parameters `_runStep` builds for a shell command;
  - the SCM conversation of `_getChanges` and `_getSources`;
  - the trace `run` emits: `currentStep` names, timings, `stepTimingsChange` and `data`;
  - the marking of step errors;
  - `hasScmChanges` and `cancel`.
- **Spawn command** (`Spawn`): `setParams`, and `run` reduced over an abstract sequence of child
  process events. The first `close` or `error` decides the callback; output is re-emitted and
  collected.
- **YAML reader** (`YamlReader`): the `!env` scalar tag (resolve and construct) and the file path
  and error passing of `_load`.
- **REST API** (`Router`, `RestApi`):
  - the router's compilation of `:key` paths into anchored patterns with greedy `(.+)` groups;
  - `getRoute` with parameter extraction;
  - the URL split;
  - the request listener;
  - every handler's decision logic: the token guard, the `loadConfig` default, and the order of
    the PATCH steps.
- **Mail notification** (`Mail`): the subject and body templates and `send`.
- **Scheduler** (`Scheduler`): the job map kept in step with the registry's events.

Shared modules: `Js` models JavaScript values, errors, truthiness, `String(v)`, `Number(v)` and
property access. `Text` models the string operations the source relies on: `split`, `join`, `\w`
runs and decimal rendering.

Everything outside the program is a parameter of the model:
- the configuration reader;
- `JSON.stringify` and `JSON.parse`;
- `querystring.parse`;
- `utils.prune`;
- regular-expression tests of catch-rev rules;
- the SCM backend, whose answers may depend on the calls made before;
- the child process events;
- the process-tree kill;
- the mail transport;
- the build store;
- the process environment.

Asynchronous pipelines (`Steppy`) are modelled sequentially: the first error skips to the final
function.

Three behaviours of the code that are easy to misread:
- **Catch-rev selection.** `_getTarget` scans the reversed list. So it selects the *last*
  matching change in input order, and the changes it returns are the input's suffix from that
  change to the end.
- **A failing step.** The error skips straight to the final function of `run`, so `_afterRun`
  is not called and `cleanup executor` is never announced after a failing step.
- **Missing `cmd` or `args`.** Spawn reports them through the callback like any other error.

## Model

| member | source | states |
|---|---|---|
| Schema.ValidateConfig | node_modules/nci/lib/project.js:41-94 | a configuration is accepted exactly when it satisfies the schema, and is then passed back unchanged; a rejection's message starts with `Error during validation of project "<name>": ` |
| Schema.Violation | node_modules/nci/lib/project.js:44-80 | a violation is reported exactly when the configuration breaks the schema: a `name` outside `^(\w\|-)+$`, an `scm` without string `type`/`repository`/`rev`, or `steps` that are not an array of valid steps |
| Schema.StepViolation | node_modules/nci/lib/project.js:63-76 | a step is faulted exactly when it is not an object with a string `cmd`, optional string `name`/`shell`/`shellCmdArg`, a `type` that is absent or `shell`, and `shellExtraArgs` that is absent or an array of strings |
| Schema.StepsViolation | node_modules/nci/lib/project.js:60-77 | no violation is found exactly when every step from the given position on is valid |
| Normalize.StepFromEntry | node_modules/nci/lib/project.js:128-137 | one dictionary entry becomes a step named after its key; an object keeps its other properties, and any other value becomes the step's `cmd` |
| Normalize.ListDefaults | node_modules/nci/lib/project.js:141-144 | the defaults pass succeeds exactly when every element can take a property, and it then keeps the list's length and defaults each element in place |
| Normalize.StepDefaultsRules | node_modules/nci/lib/project.js:141-144 | a falsy `type` becomes `shell`; a falsy `name` with a truthy `cmd` becomes the command pruned to 40 characters; a set `type` or `name` is never overwritten, and no other property changes |
| Normalize.Typed | node_modules/nci/lib/project.js:142 | only `type` changes, and only when it is falsy |
| Normalize.StepDefaultsIdempotent | node_modules/nci/lib/project.js:141-144 | applying the defaults to a defaulted step changes nothing |
| Normalize.NormalizeConfig | node_modules/nci/lib/project.js:126-146 | a configuration without `steps` passes unchanged; otherwise normalising succeeds exactly when the defaults pass does, `steps` becomes the defaulted list, and every other property is kept |
| Normalize.NormalizedSteps | node_modules/nci/lib/project.js:126-146 | the composition step the dictionary lemmas build on: a loaded configuration's `steps` is the list conversion followed by the defaults pass |
| Normalize.DictionaryEntryNormalized | node_modules/nci/lib/project.js:128-144 | a normalised dictionary entry is an object named after its key, with a truthy `type`, whose `cmd` is the entry's value when that value was not an object |
| Normalize.DictionaryStepsNamedByKey | node_modules/nci/lib/project.js:126-144 | after loading, a dictionary of steps is a list of the same length whose i-th step carries the i-th key as its name, a truthy type, and the i-th value as its command when that value was not an object |
| Normalize.NormalizedStepsTyped | node_modules/nci/lib/project.js:141-142 | every object step of a loaded list has a truthy `type` |
| Normalize.PrimitiveStepRejected | node_modules/nci/lib/project.js:141-144 | a list that holds a primitive step cannot be loaded (setting a property on a primitive throws in strict mode) |
| Normalize.StringStepMessage | node_modules/nci/lib/project.js:141-144 | a step list holding a command string fails with V8's TypeError for setting `type` on that string |
| Registry.ReadConfig | node_modules/nci/lib/project.js:118-150 | a missing directory fails with ENOENT on its path; a configuration that is read successfully is valid, and carries the requested `name`, the `archived` flag and the `dir` of its area |
| Registry.Stamp | node_modules/nci/lib/project.js:192-194 | a successful load sets `name`, `dir` and `archived = Boolean(archived)` and keeps every other property |
| Registry.Load | node_modules/nci/lib/project.js:162-209 | an empty name fails; a name that is loaded or in flight (an own entry of `loadingProjectsHash`, the corrected test of the Findings row) is a no-op; otherwise the load succeeds exactly when the directory yields a valid configuration, which is then appended once with a single `projectLoaded` event; a failure changes nothing; the in-flight set ends as it began |
| Registry.LoadAsWritten | node_modules/nci/lib/project.js:183 | as written, a name that `Object.prototype` has (`constructor`, `toString`, ...) is taken to be loading: the load ends with no error and no change; for every other name it is the load above |
| Registry.LoadAsWrittenSkipsInherited | node_modules/nci/lib/project.js:183 | a directory `constructor` with a valid configuration: the code as written reports success and registers nothing, the corrected load registers it |
| Registry.LoadSound | node_modules/nci/lib/project.js:176-206 | loading keeps names pairwise distinct and every loaded configuration valid, and its event accounts exactly for the name added |
| Registry.LoadIdempotent | node_modules/nci/lib/project.js:183-185 | a second load of the same name finds it loaded and changes nothing |
| Registry.LoadedIsFound | node_modules/nci/lib/project.js:191-200 | after a successful fresh load, `get` finds exactly the configuration read from the directory |
| Registry.LoadKeepsLoaded | node_modules/nci/lib/project.js:162-209 | loading never changes what `get` finds for a name that was already loaded |
| Registry.LoadLeavesLoaded | node_modules/nci/lib/project.js:162-209 | after a load that reports no error, the name is loaded |
| Registry.ReadConfigDependsOnFiles | node_modules/nci/lib/project.js:118-123 | what a load registers depends only on the files of the project's own directory |
| Registry.Listing | node_modules/nci/lib/project.js:223-240 | `loadAll` starts a load for exactly the non-junk entries of the active directory (not archived) and of the archive directory (archived) |
| Registry.LoadBatch | node_modules/nci/lib/project.js:230-240 | a batch of loads only appends configurations and leaves the in-flight set and the disk alone |
| Registry.LoadBatchSound | node_modules/nci/lib/project.js:230-240 | a batch of loads keeps the registry well formed, and its events account for the names added |
| Registry.LoadBatchKeepsLoaded | node_modules/nci/lib/project.js:230-240 | a batch of loads never unloads or replaces a loaded project, whatever errors it meets |
| Registry.LoadBatchLoadsAll | node_modules/nci/lib/project.js:230-240 | when no load of a batch fails, every name of the batch is loaded afterwards |
| Registry.StartedStayLoaded | node_modules/nci/lib/project.js:183-187 | a load of a batch skipped because its name already started leaves the started names loaded, and one that runs without error adds its own |
| Registry.LoadAllLoadsEveryDir | node_modules/nci/lib/project.js:217-244 | given the listings `fs.readdir` gives for the two areas, when no load fails every non-junk directory on disk, in either area, is loaded afterwards |
| Registry.LoadAll | node_modules/nci/lib/project.js:217-244 | given listings of exactly the entries of each area, `loadAll` only adds configurations after the loaded ones, and leaves the in-flight set and the disk alone |
| Registry.FindIndex | node_modules/nci/lib/project.js:267-269 | the position of the first configuration with the name, or -1 exactly when there is none |
| Registry.Get | node_modules/nci/lib/project.js:427-429 | `get` finds a configuration exactly when one with that name is loaded, and what it finds is loaded under that name |
| Registry.GetAll | node_modules/nci/lib/project.js:435-437 | `getAll` lists one configuration per loaded project, and a name is loaded exactly when a listed configuration carries it |
| Registry.GetUnique | node_modules/nci/lib/project.js:427-429 | in a well-formed registry, `get` of a loaded configuration's name finds that very configuration |
| Registry.LoadedIffNamed | node_modules/nci/lib/project.js:427-429 | a name is loaded exactly when it is among the names of the loaded configurations |
| Registry.Filter | node_modules/nci/lib/project.js:446-448 | `filter` returns exactly the loaded configurations the predicate accepts, each as often as it occurs |
| Registry.FilterAppend | node_modules/nci/lib/project.js:446-448 | `filter` keeps the order: filtering a concatenation concatenates the filtered parts |
| Registry.RemoveAt | node_modules/nci/lib/project.js:275 | `splice(index, 1)` removes exactly that element and keeps the others in their order |
| Registry.Unload | node_modules/nci/lib/project.js:255-282 | unloading a name that is not loaded fails with ``Can`t unload not loaded project: "<name>"``; otherwise exactly the configuration `get` finds is removed and announced with `projectUnloaded` |
| Registry.UnloadSound | node_modules/nci/lib/project.js:267-276 | unloading keeps the registry well formed, and its event accounts for the name removed |
| Registry.MoveDir | node_modules/nci/lib/project.js:322 | a directory rename needs an existing source and a target that is missing or empty, failing otherwise with Node's `rename 'from' -> 'to'` error; it moves the files and touches no other directory |
| Registry.ArchiveUnarchive | node_modules/nci/lib/project.js:284-332 | the guards of archive/unarchive in order, each with its own message: an empty name, a project that is not loaded, already archived, not archived, an unknown action |
| Registry.UnloadMoveLoad | node_modules/nci/lib/project.js:314-328 | a project that is not loaded ends the pipeline with the unload error and no change; a loaded one is announced unloaded first; success means the directory was moved; the in-flight set is untouched |
| Registry.Archive | node_modules/nci/lib/project.js:342-355 | only a loaded project that is not archived can be archived; an archived one is refused with `already archived` |
| Registry.Unarchive | node_modules/nci/lib/project.js:364-377 | only a loaded, archived project can be unarchived; any other loaded one is refused with `is not archived` |
| Registry.ArchiveUnarchiveIsMove | node_modules/nci/lib/project.js:292-312 | a successful archive or unarchive was asked of a loaded project whose flag is the opposite of the action's |
| Registry.UnloadMoveLoadResult | node_modules/nci/lib/project.js:314-328 | a successful unload-rename-load leaves the directory moved, and the project registered from its new place under the new name only |
| Registry.ArchiveSetsFlag | node_modules/nci/lib/project.js:314-328 | after a successful archive the project is loaded with `archived` set and its files moved to the archive area; unarchive does the reverse |
| Registry.ArchiveUnarchiveRoundTrip | node_modules/nci/lib/project.js:341-378 | archiving then unarchiving a project restores its configuration and its directory contents |
| Registry.ArchiveUnarchiveSound | node_modules/nci/lib/project.js:284-332 | archive and unarchive keep the registry well formed, and their events account for the change in loaded names |
| Registry.ReloadKeepsArchived | node_modules/nci/lib/project.js:400-415 | reloading a loaded project keeps its archived flag |
| Registry.Reload | node_modules/nci/lib/project.js:387-418 | a project that is not loaded is simply loaded, as not archived; a loaded one is announced unloaded first, then loaded again with the archived flag its configuration had (a missing flag reads as false) |
| Registry.ReloadSound | node_modules/nci/lib/project.js:387-419 | reload keeps the registry well formed, and its events account for the change |
| Registry.Remove | node_modules/nci/lib/project.js:458-506 | `remove` needs a name and a loaded project, each failure with its own message; otherwise the project is unloaded whatever `rm` reports, `rm`'s error is the result, and the directory is gone when `rm` succeeds |
| Registry.RemoveSound | node_modules/nci/lib/project.js:458-506 | remove keeps the registry well formed, and its events account for the change |
| Registry.Rename | node_modules/nci/lib/project.js:517-574 | `rename` needs a name, a new name and a loaded project, checked in that order, each with its own message |
| Registry.RenameMoves | node_modules/nci/lib/project.js:550-570 | a successful rename to an unused name leaves the project only under the new name, with the same archived flag and its directory moved within its area |
| Registry.RenameSound | node_modules/nci/lib/project.js:517-574 | rename keeps the registry well formed, and its events account for the change |
| Registry.ConfigTarget | node_modules/nci/lib/project.js:659-685 | `setConfig` writes into a loaded `projectName`'s directory, or else into an existing `projectDir`; either missing is an error |
| Registry.FileToWrite | node_modules/nci/lib/project.js:690-708 | a structured config is written as `config.json` exactly when it validates; otherwise an explicit config file is written as given; with neither there is an error |
| Registry.WriteFile | node_modules/nci/lib/project.js:712-717 | writing sets exactly that file of that directory |
| Registry.SetConfig | node_modules/nci/lib/project.js:648-730 | a missing target, a missing or invalid file, or a missing directory ends `setConfig` with an error and no changes; otherwise the file is written, and without `load` nothing else changes |
| Registry.SetConfigSound | node_modules/nci/lib/project.js:648-730 | setConfig keeps the registry well formed, and its events account for the change |
| Registry.Create | node_modules/nci/lib/project.js:587-635 | `create` needs a name that exists in neither area; a successful create had both |
| Registry.RemoveIfEmpty | node_modules/nci/lib/project.js:621-629 | the cleanup after a failed create removes the new directory only when it is empty |
| Registry.CreateSound | node_modules/nci/lib/project.js:587-635 | create keeps the registry well formed, and its events account for the change |
| Registry.AndThenSound | node_modules/nci/lib/project.js:314-328 | running one operation after another keeps both invariants when each does |
| Registry.UnloadMoveLoadSound | node_modules/nci/lib/project.js:314-328 | unloading, moving the directory and loading again keeps the registry well formed, and the events account for the change |
| CatchRev.FirstAccepted | node_modules/nci/lib/executor/base.js:349-351 | the first tag the expression accepts, or none exactly when it accepts no tag |
| CatchRev.FindIndex | node_modules/nci/lib/executor/base.js:335-356 | `findIndex` returns the first change the rule accepts, or -1 exactly when it accepts none |
| CatchRev.LastMatch | node_modules/nci/lib/executor/base.js:328-363 | the last change in input order that the rule accepts |
| CatchRev.FindIndexReversed | node_modules/nci/lib/executor/base.js:329-357 | scanning the reversed list finds the mirror position of the last match in input order |
| CatchRev.GetTargetIsSelected | node_modules/nci/lib/executor/base.js:308-370 | `_getTarget` builds the last accepted change and covers the changes from it to the end when the rule applies to `project.scm.rev`; otherwise it returns its input |
| CatchRev.GetTargetSuffix | node_modules/nci/lib/executor/base.js:308-370 | the returned changes are always a suffix of the input; unless passed through, they start at an accepted change whose id is the target revision, and no later change is accepted |
| CatchRev.NothingCaughtPassesThrough | node_modules/nci/lib/executor/base.js:315-367 | a rule that does not apply, or catches nothing, returns the revision and the changes as given |
| Executor.SetParams | node_modules/nci/lib/executor/base.js:19-26 | `env` and `envVars` are replaced only by truthy values; nothing else changes |
| Executor.SetParamsIdempotent | node_modules/nci/lib/executor/base.js:19-26 | setting the same parameters twice is setting them once |
| Executor.Extend | node_modules/nci/lib/executor/base.js:87-92 | `_.extend` leaves every property the extra object lacks |
| Executor.ExtendTakes | node_modules/nci/lib/executor/base.js:87-92 | `_.extend` takes every property the extra object has |
| Executor.DefaultFrom | node_modules/nci/lib/executor/base.js:77-79 | `_.defaults` fills a property the step leaves undefined from the project, and changes nothing else |
| Executor.WithShellDefaults | node_modules/nci/lib/executor/base.js:75-79 | the step's parameters over the project's `shell`, `shellCmdArg` and `shellExtraArgs`, with the step winning |
| Executor.RunStep | node_modules/nci/lib/executor/base.js:74-98 | a step runs exactly when its type is `shell`; any other type throws `Unknown step type: <type>` |
| Executor.RunStepParams | node_modules/nci/lib/executor/base.js:85-97 | the command runs with the defaulted parameters, the executor's `cwd` whatever the step says, and the executor's `envVars` |
| Executor.RunStepSettingsCwd | node_modules/nci/lib/executor/base.js:85-93 | the command is created with the executor's `cwd` |
| Executor.RunStepSettingsParams | node_modules/nci/lib/executor/base.js:86-93 | the command is created with the parameters it runs with |
| Executor.RunStepSettingsFlags | node_modules/nci/lib/executor/base.js:87-92 | the output flags `emitIn`, `emitOut`, `emitErr` and `attachStderr` are on unless the step sets them |
| Executor.FetchChangesCalls | node_modules/nci/lib/executor/base.js:100-151 | a cloned repository is asked for its current revision and pulled, an uncloned one cloned into the executor's directory; changes are listed from the old revision's id, and the target is the catch-rev selection |
| Executor.GetSourcesCalls | node_modules/nci/lib/executor/base.js:28-54 | after updating to the target, the current and the requested revisions are read; the build covers the selected changes, and `isLatest` holds exactly when the two ids agree |
| Executor.GetSourcesStopsAtPull | node_modules/nci/lib/executor/base.js:28-54 | a failing pull ends `_getSources` with its error |
| Executor.RunStepsAnnounce | node_modules/nci/lib/executor/base.js:231-258 | steps that all succeed announce every step name, in declared order |
| Executor.RunStepsTimed | node_modules/nci/lib/executor/base.js:238-242 | steps that all succeed append one timing per step, in declared order |
| Executor.RunStepsReported | node_modules/nci/lib/executor/base.js:238-242 | steps that all succeed emit one `stepTimingsChange` each; the k-th carries the timings so far followed by the names of the steps up to the k-th |
| Executor.RunStepsFail | node_modules/nci/lib/executor/base.js:231-258 | when a step fails, only the steps before it, and the failing step itself, are announced |
| Executor.RunSuccessTrace | node_modules/nci/lib/executor/base.js:201-279 | a successful run announces `prepare executor`, `get sources`, every step and `cleanup executor`, in order; after the k-th step it reports the two preparation phases and the steps up to the k-th, and it ends with a `stepTimingsChange` of exactly all those names |
| Executor.FinishTrace | node_modules/nci/lib/executor/base.js:226-277 | once the sources are in, steps and cleanup that all succeed give one `stepTimingsChange` per step, carrying the list so far, and a last one that adds `cleanup executor` |
| Executor.FinishSuccess | node_modules/nci/lib/executor/base.js:260-277 | a run that reaches its end without error announces the cleanup last and reports the complete timing list |
| Executor.RunStepFailure | node_modules/nci/lib/executor/base.js:250-269 | a failing step's own error, marked `projectStepError = true` and with its message unchanged, is what the run reports |
| Executor.RunStepFailureTrace | node_modules/nci/lib/executor/base.js:209-279 | after a failing step the run has announced the two preparation phases and the first steps, up to the failing one |
| Executor.RunStepFailureNoCleanup | node_modules/nci/lib/executor/base.js:250-269 | after a failing step the cleanup phase is never announced |
| Executor.RunBeforeRunFailure | node_modules/nci/lib/executor/base.js:209-215 | a failing `_beforeRun` ends the run after its announcement, with its own error, unmarked |
| Executor.Run | node_modules/nci/lib/executor/base.js:201-279 | a run always starts by announcing `prepare executor`; a failing `_beforeRun` ends it there with that error; a run without error had both hooks succeed and ends with a `stepTimingsChange` whose last name is `cleanup executor` |
| Executor.HasScmChangesAnswer | node_modules/nci/lib/executor/base.js:154-187 | with the default hooks: an uncloned repository reports changes without asking the SCM; otherwise the answer is whether the selected changes are non-empty, and an SCM error is passed on without an answer |
| Executor.HasScmChanges | node_modules/nci/lib/executor/base.js:154-187 | an answer without error always says whether there are changes; a hook or clone-check error is passed on without an answer; an uncloned repository with the default hooks has changes |
| Executor.CancelOutcomes | node_modules/nci/lib/executor/base.js:281-305 | a build is marked canceled exactly when there is a current command with a pid and its tree was killed; each missing part has its own message |
| Executor.Cancel | node_modules/nci/lib/executor/base.js:281-305 | `cancel` succeeds exactly when it marks the build canceled, which needs a current command with a pid; given both, the outcome is that of the tree kill |
| Spawn.SetParams | node_modules/nci/lib/command/spawn.js:16-23 | each truthy parameter sets its flag or `cwd`; a falsy one leaves it |
| Spawn.SetParamsIdempotent | node_modules/nci/lib/command/spawn.js:16-23 | giving the same parameters twice is giving them once |
| Spawn.Run | node_modules/nci/lib/command/spawn.js:28-84 | a missing `cmd`, then a missing `args`, is reported through the callback without spawning; otherwise the process is spawned with the options' `cwd` (or the command's) and `envVars` as its environment |
| Spawn.FirstTerminal | node_modules/nci/lib/command/spawn.js:67-81 | the position of the first `close` or `error` event, the one that decides the callback |
| Spawn.RunHandlers | node_modules/nci/lib/command/spawn.js:28-84 | running the listeners event by event gives exactly the outcome `Run` describes |
| Spawn.HandleStep | node_modules/nci/lib/command/spawn.js:57-81 | one more event keeps the listeners' state in step with `Run` on the longer prefix |
| Spawn.ZeroExitReply | node_modules/nci/lib/command/spawn.js:67-76 | a zero exit first gives `(null, stdout)`, with stdout the chunks before it when `collectOut` is set and `null` otherwise |
| Spawn.NonZeroExitReply | node_modules/nci/lib/command/spawn.js:47-76 | a non-zero exit first gives an error naming the command line and the code, with `exitCode` and the collected `stderr` (`null` without `attachStderr`) |
| Spawn.ExitErrorShape | node_modules/nci/lib/command/spawn.js:47-75 | the exit error's message, `exitCode` and `stderr` |
| Spawn.ErrorEventReply | node_modules/nci/lib/command/spawn.js:47-81 | an `error` event first reports that error, its message prefixed with `Error while spawn "<cmd args>": ` and its other properties kept |
| Spawn.LaterEventsIgnored | node_modules/nci/lib/command/spawn.js:33 | events after the first `close` or `error` do not change the reply |
| Spawn.FirstTerminalExtends | node_modules/nci/lib/command/spawn.js:33 | events appended after a `close` or `error` do not move the first one |
| Spawn.NoTerminalNoReply | node_modules/nci/lib/command/spawn.js:67-81 | without a `close` or `error` event the callback is not called |
| YamlReader.EnvScalar | node_modules/nci-yaml-reader/lib/index.js:12-24 | the tag is refused exactly when the scalar holds no `$NAME`, with js-yaml's reason |
| YamlReader.ResolveFindsVariable | node_modules/nci-yaml-reader/lib/index.js:9-17 | the tag applies exactly when the scalar holds a `$` followed by a word character |
| YamlReader.Tokenize | node_modules/nci-yaml-reader/lib/index.js:9 | every variable the pattern finds has a non-empty name of word characters |
| YamlReader.TokenizeUnparse | node_modules/nci-yaml-reader/lib/index.js:9-23 | the pattern's tokenisation of a scalar loses nothing |
| YamlReader.ConstructExpands | node_modules/nci-yaml-reader/lib/index.js:19-23 | `construct` replaces exactly the variables the pattern finds, left to right, and keeps every other character |
| YamlReader.ConstructWithoutVariables | node_modules/nci-yaml-reader/lib/index.js:19-23 | a scalar without variables is constructed as itself |
| YamlReader.ConstructIdentity | node_modules/nci-yaml-reader/lib/index.js:19-23 | with every variable's value being its own reference, construction is the identity |
| YamlReader.LeadingVariable | node_modules/nci-yaml-reader/lib/index.js:19-23 | a scalar `$NAME` followed by text without variables is that variable's value followed by the text |
| YamlReader.HomeTmp | node_modules/nci-yaml-reader/test.js:221 | `!env $HOME/tmp` is the home directory followed by `/tmp` |
| YamlReader.BareNameRefused | node_modules/nci-yaml-reader/test.js:214-216 | `!env HOME` is refused with `cannot resolve a node with !<!env> explicit tag` |
| YamlReader.Load | node_modules/nci-yaml-reader/lib/index.js:39-53 | `_load` reads `<dir>/<name>.yaml`; a read error is passed on unchanged, otherwise the parse result (an error included) is |
| YamlReader.ConfigPathExample | node_modules/nci-yaml-reader/test.js:91-96 | the configuration `test` in `/tmp` is read from `/tmp/test.yaml` |
| Router.Compile | node_modules/nci-rest-api-server/lib/index.js:16-20 | every `:word` of a path becomes a group whose key is a non-empty word |
| Router.CompileDecompile | node_modules/nci-rest-api-server/lib/index.js:16-25 | there is one key per group, in order, and writing each group back as `:key` gives the registered path |
| Router.Register | node_modules/nci-rest-api-server/lib/index.js:13-28 | a registered route keeps its handler, and its pattern and keys spell the path |
| Router.RunLength | node_modules/nci-rest-api-server/lib/index.js:19 | the longest run at the head of a text that `.` matches stops at the first line terminator |
| Router.MatchSound | node_modules/nci-rest-api-server/lib/index.js:23-35 | a match the anchored pattern returns puts non-empty, line-terminator-free texts in the groups that spell the whole path |
| Router.MatchComplete | node_modules/nci-rest-api-server/lib/index.js:23-35 | the search finds a match whenever one exists |
| Router.TryCapture | node_modules/nci-rest-api-server/lib/index.js:19 | a greedy group's match has a capture |
| Router.TryCaptureGreedy | node_modules/nci-rest-api-server/lib/index.js:19 | trying captures from the longest down finds one at least as long as any match's first capture |
| Router.LeadingCaptureIsLongest | node_modules/nci-rest-api-server/lib/index.js:19-35 | a leading `(.+)` captures the longest text any match could give it |
| Router.ParamsByKey | node_modules/nci-rest-api-server/lib/index.js:40-45 | with distinct keys, each key's parameter is its own group's text |
| Router.ParamsHasKeys | node_modules/nci-rest-api-server/lib/index.js:40-45 | a parameter exists exactly for each key |
| Router.FindRoute | node_modules/nci-rest-api-server/lib/index.js:34-37 | the first route whose pattern matches the path, and none exactly when no route matches |
| Router.GetRouteFirstMatch | node_modules/nci-rest-api-server/lib/index.js:32-48 | the route found is the first of the lower-cased verb whose pattern matches; its handler is that route's, and the params exist exactly when it has keys, each key's param being its group's text |
| Router.GetRouteNone | node_modules/nci-rest-api-server/lib/index.js:32-48 | no route is found exactly when no route of the verb matches the path |
| Router.SplitUrl | node_modules/nci-rest-api-server/lib/index.js:341-343 | neither the path nor the query holds a `?` |
| Router.SplitUrlPrefix | node_modules/nci-rest-api-server/lib/index.js:341-343 | the path is the URL up to its first `?`, and there is a query exactly when the URL has a `?`, the query being a prefix of what follows it |
| RestApi.Routes | node_modules/nci-rest-api-server/lib/index.js:59-232 | each verb's routes are the registered paths and handlers, in registration order |
| RestApi.RouteOfIsRegistered | node_modules/nci-rest-api-server/lib/index.js:59-232 | every handler is registered under its own verb and path |
| RestApi.RegisteredOnlyAtRouteOf | node_modules/nci-rest-api-server/lib/index.js:59-232 | no handler is registered under a second verb |
| RestApi.RecentQueryOf | node_modules/nci-rest-api-server/lib/index.js:62-66 | the limit is `Number(limit)` unless that is 0 or `NaN`, when it is 20; the project filter is set exactly when the query names a project |
| RestApi.HandleRunBuild | node_modules/nci-rest-api-server/lib/index.js:97-122 | a build is queued (204) exactly when the body names a loaded project, else 404; the registry is untouched |
| RestApi.HandlePatchBuild | node_modules/nci-rest-api-server/lib/index.js:124-148 | a truthy `cancel` cancels the build and passes on the store's error; the answer is 204 otherwise |
| RestApi.HandleGetProject | node_modules/nci-rest-api-server/lib/index.js:194-207 | 404 exactly when the named project is not loaded; otherwise the project as JSON |
| RestApi.GetProjectIffLoaded | node_modules/nci-rest-api-server/lib/index.js:194-207 | a project can be read back through the API exactly when it is loaded, and what is read is its configuration |
| RestApi.FindProject | node_modules/nci-rest-api-server/lib/index.js:197 | `app.projects.get` of a request value finds a project exactly when the value is a loaded name |
| RestApi.WrongTokenRefused | node_modules/nci-rest-api-server/lib/index.js:164-252 | creating, deleting or patching a project with a wrong token is refused and changes nothing |
| RestApi.ReadOnlyEndpoints | node_modules/nci-rest-api-server/lib/index.js:59-207 | the build and project reads, and the build requests, leave the registry alone; only `POST builds` queues a build |
| RestApi.PatchUnknownProject | node_modules/nci-rest-api-server/lib/index.js:254-260 | patching a project that is not loaded fails with ``Can`t find project "<name>" for patch`` and changes nothing |
| RestApi.EmptyPatchChangesNothing | node_modules/nci-rest-api-server/lib/index.js:262-326 | a patch without config, boolean `archived` or new name answers 204 and changes nothing |
| RestApi.PatchArchivedIsArchive | node_modules/nci-rest-api-server/lib/index.js:278-293 | a patch that only gives a boolean `archived` differing from the project's flag is exactly the registry's archive or unarchive |
| RestApi.PatchName | node_modules/nci-rest-api-server/lib/index.js:294-322 | the rename step does nothing unless the new name is truthy and differs, and refuses a name already loaded without changes |
| RestApi.PatchRenameOntoTaken | node_modules/nci-rest-api-server/lib/index.js:297-313 | renaming onto a loaded project's name fails without touching the registry |
| RestApi.NonApiPassedOn | node_modules/nci-rest-api-server/lib/index.js:376-382 | a URL outside `/api/` is passed on untouched |
| RestApi.UnroutedIsNotFound | node_modules/nci-rest-api-server/lib/index.js:355-365 | a request that no route of its verb matches gets 404 and changes nothing |
| RestApi.Handle | node_modules/nci-rest-api-server/lib/index.js:337-382 | a URL outside `/api/` goes to `next`; a failed request stream or an unparsable body is passed to `next` as an error; only a request whose body was read and parsed can change anything |
| RestApi.GetRequestReadOnly | node_modules/nci-rest-api-server/lib/index.js:59-156 | every `GET` request leaves the projects unchanged, emits no event and queues no build |
| RestApi.HandleListBuilds | node_modules/nci-rest-api-server/lib/index.js:59-75 | `GET builds` answers with the store's recent builds under `builds`, or passes the store's error on, and changes nothing |
| RestApi.HandleGetBuild | node_modules/nci-rest-api-server/lib/index.js:77-94 | `GET builds/:id` answers 404 exactly when the store finds no build, the build under `build` otherwise, passes the store's error on, and changes nothing |
| RestApi.HandleListProjects | node_modules/nci-rest-api-server/lib/index.js:150-156 | `GET projects` lists the configurations of `getAll`, in order, and changes nothing |
| RestApi.HandleSound | node_modules/nci-rest-api-server/lib/index.js:331-369 | whatever a request does, the registry stays well formed and the reply's events account exactly for the change in loaded projects |
| RestApi.DispatchSound | node_modules/nci-rest-api-server/lib/index.js:358-361 | every handler keeps the registry invariant |
| RestApi.CreateSound | node_modules/nci-rest-api-server/lib/index.js:159-192 | `POST projects` keeps the registry invariant |
| RestApi.RemoveSound | node_modules/nci-rest-api-server/lib/index.js:209-230 | `DELETE projects/:name` keeps the registry invariant |
| RestApi.PatchProjectSound | node_modules/nci-rest-api-server/lib/index.js:232-329 | `PATCH projects/:name` keeps the registry invariant |
| RestApi.PatchSound | node_modules/nci-rest-api-server/lib/index.js:262-322 | the config, archive and rename steps of a patch together keep the registry invariant |
| RestApi.PatchConfigSound | node_modules/nci-rest-api-server/lib/index.js:262-275 | the config step of a patch keeps the registry invariant |
| RestApi.PatchArchivedSound | node_modules/nci-rest-api-server/lib/index.js:278-293 | the archive step of a patch keeps the registry invariant |
| RestApi.PatchNameSound | node_modules/nci-rest-api-server/lib/index.js:297-321 | the rename step of a patch keeps the registry invariant |
| Mail.ChangeLoopIsJoin | node_modules/nci-mail-notification/lib/index.js:36-41 | the change loop is the `author: comment` lines joined with `<br>`, with no trailing separator |
| Mail.BodyShape | node_modules/nci-mail-notification/lib/index.js:29-45 | the body is its head followed by `, scm changes:<br>` and the joined change lines, or by `, no scm changes` when there are none |
| Mail.NoScmDataNoChanges | node_modules/nci-mail-notification/lib/index.js:42-50 | a build without SCM changes is reported as having none |
| Mail.Compose | node_modules/nci-mail-notification/lib/index.js:58-76 | the message carries the rendered subject and body, goes to the recipients joined with `,`, and the transport's answer is passed on; a non-array recipient list fails inside the pipeline |
| Mail.SendAsWrittenThrowsWithoutRecipients | node_modules/nci-mail-notification/lib/index.js:51-53 | as written, a project without mail recipients makes `send` throw |
| Mail.SendAsWritten | node_modules/nci-mail-notification/lib/index.js:47-77 | as written, `send` throws exactly when the recipient list is missing, quits only for a falsy list that is present, and mails for every truthy one, the empty array included |
| Mail.SendAsWrittenMailsNobody | node_modules/nci-mail-notification/lib/index.js:53-73 | as written, an empty recipient list is mailed to the empty address |
| Mail.Send | node_modules/nci-mail-notification/lib/index.js:47-77 | with the guard meant, `send` never throws, quits exactly when the recipients are missing or empty, and mails only to a non-empty list |
| Mail.SendAgreesOnRecipients | node_modules/nci-mail-notification/lib/index.js:53-76 | for a non-empty recipient list, the corrected and the written `send` agree |
| Mail.RecipientsRoundTrip | node_modules/nci-mail-notification/lib/index.js:72 | splitting the address line at the commas gives back the recipients |
| Scheduler.OnLoaded | node_modules/nci-scheduler/lib/index.js:10-32 | a job is added, with the project's schedule, exactly when `buildEvery.time` is truthy and the project is not archived; other jobs are kept |
| Scheduler.OnUnloaded | node_modules/nci-scheduler/lib/index.js:34-40 | the project's job, if any, is removed, and no other job changes |
| Scheduler.Tick | node_modules/nci-scheduler/lib/index.js:21-27 | a tick asks for a build of the job's project, initiated by the scheduler |
| Scheduler.JobsFollowEvents | node_modules/nci-scheduler/lib/index.js:18-38 | the jobs stay within the names that were loaded and not unloaded since |
| Scheduler.LoadThenUnload | node_modules/nci-scheduler/lib/index.js:10-40 | loading a project and unloading it again leaves the jobs as they were |
| Scheduler.JobsFollowApi | node_modules/nci-scheduler/lib/index.js:10-40 | through any API request, the jobs stay within the loaded projects |
| Js.PrefixMessage | node_modules/nci/lib/command/spawn.js:47-55 | prefixing an error's message keeps the rest of the message and every property |
| Js.SetProp | node_modules/nci/lib/executor/base.js:252 | setting a property of an error sets exactly that property and keeps the message |
| Js.ReadProperty | node_modules/nci-rest-api-server/lib/index.js:100 | reading a property fails exactly on `undefined` and `null`, and otherwise gives the property |
| Js.StringToNumberOfIntToString | node_modules/nci-rest-api-server/lib/index.js:80 | `Number` of the decimal rendering of an integer id gives back the id |
| Text.SplitJoin | node_modules/nci-rest-api-server/lib/index.js:341 | splitting at a character and joining back with it gives the original text |
| Text.JoinSplit | node_modules/nci-mail-notification/lib/index.js:72 | joining texts without the separator and splitting again gives them back |

## Left out

- File system, database and process plumbing. `fs.*` is modelled only as moves, writes and removals of directory contents. The `db.builds` / `logLines` work of `remove` and `rename` is not modelled: build history is not part of this model.
- Real concurrency. The loads of `loadAll` run sequentially in listing order, and the first error in that order is the one reported. `getCurrent` and `getRev` in `_getSources` run one after the other, and the first error is the one reported.
- `Date.now` durations: timings keep only the step names.
- Regular expressions. Catch-rev `onRev`/`comment`/`tag` expressions are an uninterpreted test function. Route paths interpret only `.` (any character except a line terminator) and the `(.+)` groups; every other path character is literal, which holds for the paths the API registers.
- The `lastIndex` state of the global `!env` regular expression, which `resolve` leaves behind: the pattern is applied fresh each time.
- `js-yaml` parsing, `JSON.parse`/`JSON.stringify`, `querystring.parse`, `utils.prune`, the configuration reader and `validateParams` are parameters. The schema is stated directly instead.
- The access token drawn with `Math.random` (floating point): the token is a parameter.
- The cron timer, the mail transport (nodemailer), the HTTP response writing and the request stream. The body arrives as one text, or as an error.
- SCM `stdin` data events, which `_getChanges` forwards as `data`.
- `tree-kill`: a kill is a function that answers with an error or nothing.
- `nci-projects-reloader` and `nci-static-server`: thin wrappers over a file watcher and a static file server.
- RestApi.NameArg: a non-string truthy project name is taken as its string form, where `path.join` would throw a TypeError.
- RestApi.ConfigArg: a non-object `config` is treated as absent.
- RestApi.ConfigFileArg: a `configFile` without string `name` and `content` is treated as absent.
- Js.StringToNumber: `Number(s)` is modelled for optionally signed decimal integers and the empty string only. Whitespace, hexadecimal, fractions and exponents are `NaN` here.
- Js.NoProperty: the TypeError wording, here and in `Js.CannotCreateProperty`, is that of the V8 releases the code was written for; newer releases say `Cannot read properties of undefined (reading 'x')`.
- Registry.JoinPath: `path.join` is modelled for a plain directory and a plain name, without normalising `..` or repeated separators.
- YamlReader.JoinPath: the same `path.join` with the one extra case of a directory that ends in `/`; the two are kept apart because the registry's directories never end in a separator.
- Registry.LoadLeavesLoaded: holds of the corrected in-flight test. As written, a name that `Object.prototype` has loads with no error and stays unloaded (see Findings).
- Registry.LoadBatchLoadsAll: holds of the corrected in-flight test. As written, a batch entry named like an `Object.prototype` property stays unloaded with no error (see Findings).
- Registry.StartedStayLoaded: holds of the corrected in-flight test. As written, a load that runs without error does not add a name that `Object.prototype` has (see Findings).
- Registry.LoadAllLoadsEveryDir: holds of the corrected in-flight test. As written, `loadAll` silently skips a directory named like an `Object.prototype` property (see Findings).
- Scheduler.OnUnloaded: `projectJobs` holds only its own keys here. As written, `name in projectJobs` also holds for an `Object.prototype` name, and unloading such a project would throw reading `job`. The registry as written never loads such a name, and the corrected one makes this reachable.
- Registry.ReadConfig: a missing directory fails with ENOENT naming the directory, as listing it does. The wording a particular configuration reader gives is not part of this model. A `readdir` of a missing area in `loadAll` is not modelled either: both areas always exist here.
- Registry.FsError: Node's `errno` property is left out, because its value depends on the platform.
- Scheduler.OnLoaded: `new CronJob` checks `cronTime` and throws on a schedule it cannot parse. The throw happens inside the `projectLoaded` emit, after `projectJobs[name]` was set to `{}` and after the configuration was pushed. Steppy hands it to `load`'s last step, so the load reports that error while the project stays loaded, and a later unload throws reading `job.stop` of the entry without a job. Here every truthy schedule installs a job, and the load reports no error.
- Mail.Build: `recipients` is taken as given. The source reads `build.project.notify.to.mail` and throws a TypeError before the guard when `notify` or `notify.to` is missing; that throw is not modelled.
- Registry.Create: the directory `create` makes with `mkdir` is added as an empty directory of the active area. A failing `mkdir` is not modelled.

## Findings

| source | as written | input that shows it | evidently intended | confidence | as-written member | corrected member |
|---|---|---|---|---|---|---|
| node_modules/nci-mail-notification/lib/index.js:53 | `if (!recipients && !recipients.length)` reads `length` of a missing recipient list, and lets an empty list through | `build.project.notify.to.mail` undefined: `send` throws a TypeError; `[]`: a mail is sent to `""` | quit when the list is missing or empty (`!recipients \|\| !recipients.length`) | not executed | Mail.SendAsWritten (Mail.SendAsWrittenThrowsWithoutRecipients, Mail.SendAsWrittenMailsNobody) | Mail.Send |
| node_modules/nci/lib/project.js:183 | `self.loadingProjectsHash[name]` reads the plain object `{}` of line 28, so every name `Object.prototype` has counts as a load in flight | a project directory `constructor` with a valid configuration: `load` calls back with no error and loads nothing, `loadAll` skips it | test own entries only (`hasOwnProperty`) | not executed | Registry.LoadAsWritten (Registry.LoadAsWrittenSkipsInherited) | Registry.Load (Registry.LoadLeavesLoaded) |
