/**
 The project registry (`ProjectsCollection` in nci/lib/project.js): the
 configurations of loaded projects, the names whose load is in flight, and
 the two directory areas on disk (active and archived projects), each a map
 from project name to the files of that project's directory.

 Every operation is a transition from one `State` to an `Outcome`: the new
 state, the events emitted (`projectLoaded` / `projectUnloaded`) and the
 error passed to the operation's callback, if any. Steps of the source's
 Steppy pipelines run in sequence; the first error skips the remaining ones.

 The configuration reader, `JSON.stringify`, `utils.prune` and the result of
 `rm -Rf` are not part of this model: they are fields of `Env`.
 */
module Registry {
  import opened Text
  import opened Js
  import opened Schema
  import opened Normalize

  /** The files of one project directory: file name to content. */
  type Files = map<string, string>

  /** The two directory areas: `baseDir` (active) and `archiveDir`. */
  datatype Disk = Disk(active: map<string, Files>, archived: map<string, Files>)

  /** A project directory: its area and its name. */
  datatype Location = Location(archived: bool, name: string)

  /** A configuration file given literally (`params.configFile`). */
  datatype ConfigFile = ConfigFile(name: string, content: string)

  /** The collaborators of the registry. `reader` reads the configuration
      held by the files of an existing directory. */
  datatype Env = Env(
    baseDir: string,
    archiveDir: string,
    reader: Files -> Result<Fields>,
    prune: Prune,
    stringify: Value -> string)

  datatype Event = ProjectLoaded(config: Fields) | ProjectUnloaded(config: Fields)

  /** `configs` is the list of loaded configurations; `loading` the names
      whose load is in flight (`loadingProjectsHash`). */
  datatype State = State(configs: seq<Fields>, loading: set<string>, disk: Disk)

  datatype Outcome = Outcome(state: State, events: seq<Event>, error: Option<Error>)

  function Done(st: State): Outcome {
    Outcome(st, [], None)
  }

  function Failed(st: State, message: string): Outcome {
    Outcome(st, [], Some(Fail(message)))
  }

  /** Run `second` on the state `first` ends in, unless `first` failed. */
  function AndThen(first: Outcome, second: Outcome): Outcome
  {
    if first.error.Some? then first
    else Outcome(second.state, first.events + second.events, second.error)
  }

  // ---------------------------------------------------------------------
  // Paths and the disk

  /** `path.join(dir, name)` for a plain directory and a plain name. */
  function JoinPath(dir: string, name: string): string {
    dir + "/" + name
  }

  /** `_getProjectPath`. */
  function ProjectPath(env: Env, archived: bool, name: string): string {
    JoinPath(if archived then env.archiveDir else env.baseDir, name)
  }

  function PathOf(env: Env, loc: Location): string {
    ProjectPath(env, loc.archived, loc.name)
  }

  function Area(disk: Disk, archived: bool): map<string, Files> {
    if archived then disk.archived else disk.active
  }

  function WithArea(disk: Disk, archived: bool, area: map<string, Files>): Disk {
    if archived then disk.(archived := area) else disk.(active := area)
  }

  predicate Exists(disk: Disk, loc: Location) {
    loc.name in Area(disk, loc.archived)
  }

  function FilesAt(disk: Disk, loc: Location): Option<Files> {
    if Exists(disk, loc) then Some(Area(disk, loc.archived)[loc.name]) else None
  }

  /** The error codes the registry's file-system calls can fail with. */
  datatype FsCode = ENOENT | ENOTEMPTY

  function CodeName(code: FsCode): string {
    match code
    case ENOENT => "ENOENT"
    case ENOTEMPTY => "ENOTEMPTY"
  }

  /** The description libuv gives for an error code. */
  function CodeText(code: FsCode): string {
    match code
    case ENOENT => "no such file or directory"
    case ENOTEMPTY => "directory not empty"
  }

  /** A failed file-system call on one path, as Node builds the error:
      `CODE: description, syscall 'path'`, with `code`, `syscall` and `path`
      as properties (`errno`, whose value depends on the platform, is left out). */
  function FsError(code: FsCode, syscall: string, path: string): Error {
    Error(CodeName(code) + ": " + CodeText(code) + ", " + syscall + " '" + path + "'",
      [("code", Str(CodeName(code))), ("syscall", Str(syscall)), ("path", Str(path))])
  }

  /** A failed `fs.rename`: Node names both paths, `rename 'from' -> 'to'`,
      and adds the target as `dest`. */
  function RenameError(code: FsCode, from: string, to: string): Error {
    Error(CodeName(code) + ": " + CodeText(code) + ", rename '" + from + "' -> '" + to + "'",
      [("code", Str(CodeName(code))), ("syscall", Str("rename")), ("path", Str(from)), ("dest", Str(to))])
  }

  /** `fs.rename` of a directory: the source must exist, and an existing
      non-empty target is not replaced. Renaming to itself changes nothing. */
  function MoveDir(env: Env, disk: Disk, from: Location, to: Location): (r: Result<Disk>)
    ensures r.Ok? <==> Exists(disk, from) && (from == to || !Exists(disk, to) || FilesAt(disk, to) == Some(map[]))
    ensures r.Ok? && from != to ==> !Exists(r.value, from) && FilesAt(r.value, to) == FilesAt(disk, from)
    ensures r.Ok? ==> forall loc :: loc != from && loc != to ==> FilesAt(r.value, loc) == FilesAt(disk, loc)
  {
    if !Exists(disk, from) then Err(RenameError(ENOENT, PathOf(env, from), PathOf(env, to)))
    else if from == to then Ok(disk)
    else if Exists(disk, to) && FilesAt(disk, to) != Some(map[]) then
      Err(RenameError(ENOTEMPTY, PathOf(env, from), PathOf(env, to)))
    else
      var files := Area(disk, from.archived)[from.name];
      var removed := WithArea(disk, from.archived, Area(disk, from.archived) - {from.name});
      Ok(WithArea(removed, to.archived, Area(removed, to.archived)[to.name := files]))
  }

  // ---------------------------------------------------------------------
  // Reading the collection

  predicate NameIs(config: Fields, name: string) {
    Lookup(config, "name") == Str(name)
  }

  /** The name of a loaded configuration. */
  function NameOf(config: Fields): string {
    if Lookup(config, "name").Str? then Lookup(config, "name").s else ""
  }

  /** `project.archived`, read as a condition. */
  predicate IsArchived(config: Fields) {
    Truthy(Lookup(config, "archived"))
  }

  /** `_(configs).findIndex(c => c.name === name)`. */
  function FindIndex(configs: seq<Fields>, name: string): (i: int)
    ensures -1 <= i < |configs|
    ensures i >= 0 ==> NameIs(configs[i], name)
    ensures i >= 0 ==> forall j :: 0 <= j < i ==> !NameIs(configs[j], name)
    ensures i == -1 <==> forall j :: 0 <= j < |configs| ==> !NameIs(configs[j], name)
    decreases |configs|
  {
    if |configs| == 0 then -1
    else if NameIs(configs[0], name) then 0
    else
      var k := FindIndex(configs[1..], name);
      assert forall j :: 1 <= j < |configs| ==> configs[1..][j - 1] == configs[j];
      if k == -1 then -1 else k + 1
  }

  /** `get(name)`: the first loaded configuration with that name. */
  function Get(st: State, name: string): (r: Option<Fields>)
    ensures r.Some? <==> exists j :: 0 <= j < |st.configs| && NameIs(st.configs[j], name)
    ensures r.Some? ==> r.value in st.configs && NameIs(r.value, name)
  {
    var i := FindIndex(st.configs, name);
    if i == -1 then None else Some(st.configs[i])
  }

  predicate IsLoaded(st: State, name: string) {
    Get(st, name).Some?
  }

  /** `getAll()`: the loaded configurations, which are exactly those `get` can find by name. */
  function GetAll(st: State): (r: seq<Fields>)
    ensures |r| == |st.configs|
    ensures forall name :: IsLoaded(st, name) ==> Get(st, name).value in r
    ensures forall name :: IsLoaded(st, name) <==> exists i :: 0 <= i < |r| && NameIs(r[i], name)
  {
    st.configs
  }

  /** `filter(predicate)`: the loaded configurations accepted by `keep`, in order. */
  function Filter(configs: seq<Fields>, keep: Fields -> bool): (r: seq<Fields>)
    ensures |r| <= |configs|
    ensures forall c :: c in r <==> c in configs && keep(c)
    ensures forall c :: multiset(r)[c] == if keep(c) then multiset(configs)[c] else 0
    decreases |configs|
  {
    if |configs| == 0 then []
    else
      var rest := Filter(configs[1..], keep);
      assert configs == [configs[0]] + configs[1..];
      assert forall c :: c in configs <==> c == configs[0] || c in configs[1..];
      assert forall c :: multiset(configs)[c] == multiset([configs[0]])[c] + multiset(configs[1..])[c];
      if keep(configs[0]) then [configs[0]] + rest else rest
  }

  /** Filtering keeps the order: the filter of a concatenation is the
      concatenation of the filters. */
  lemma {:induction false} FilterAppend(a: seq<Fields>, b: seq<Fields>, keep: Fields -> bool)
    ensures Filter(a + b, keep) == Filter(a, keep) + Filter(b, keep)
    decreases |a|
  {
    if |a| > 0 {
      assert (a + b)[0] == a[0];
      assert (a + b)[1..] == a[1..] + b;
      FilterAppend(a[1..], b, keep);
    } else {
      assert a + b == b;
    }
  }

  /** The names of the loaded projects. */
  function Names(configs: seq<Fields>): set<string> {
    set i | 0 <= i < |configs| :: NameOf(configs[i])
  }

  // ---------------------------------------------------------------------
  // Well-formedness of the collection

  predicate NamesDistinct(configs: seq<Fields>) {
    forall i, j :: 0 <= i < j < |configs| ==> NameOf(configs[i]) != NameOf(configs[j])
  }

  /** What every successful load leaves behind: a valid configuration whose
      `name`, `dir` and `archived` agree with where it was loaded from. */
  predicate LoadedConfig(env: Env, c: Fields) {
    && Lookup(c, "name").Str?
    && Lookup(c, "archived").Bool?
    && Lookup(c, "dir") == Str(ProjectPath(env, Lookup(c, "archived").b, NameOf(c)))
    && ValidConfig(c)
  }

  predicate WellFormed(env: Env, st: State) {
    && NamesDistinct(st.configs)
    && forall i :: 0 <= i < |st.configs| ==> LoadedConfig(env, st.configs[i])
  }

  lemma LoadedNameIsValid(env: Env, c: Fields)
    requires LoadedConfig(env, c)
    ensures ValidName(NameOf(c)) && NameIs(c, NameOf(c))
  {
  }

  // ---------------------------------------------------------------------
  // load

  /** The configuration a successful load registers: the normalised file
      content with `name`, `dir` and `archived` set. */
  function Stamp(env: Env, config: Fields, name: string, archived: bool): (c: Fields)
    ensures Lookup(c, "name") == Str(name)
    ensures Lookup(c, "dir") == Str(ProjectPath(env, archived, name))
    ensures Lookup(c, "archived") == Bool(archived)
    ensures forall k :: k != "name" && k != "dir" && k != "archived" ==> Lookup(c, k) == Lookup(config, k)
  {
    Put(Put(Put(config, "name", Str(name)), "dir", Str(ProjectPath(env, archived, name))), "archived", Bool(archived))
  }

  /** Read, normalise, stamp and validate the configuration in a directory.
      A directory that does not exist cannot be read: the listing of it fails
      with ENOENT. */
  function ReadConfig(env: Env, disk: Disk, name: string, archived: bool): (r: Result<Fields>)
    ensures !Exists(disk, Location(archived, name)) ==>
      r == Err(FsError(ENOENT, "scandir", ProjectPath(env, archived, name)))
    ensures r.Ok? ==>
      && ValidConfig(r.value)
      && Lookup(r.value, "name") == Str(name)
      && Lookup(r.value, "archived") == Bool(archived)
      && Lookup(r.value, "dir") == Str(ProjectPath(env, archived, name))
  {
    var loc := Location(archived, name);
    if !Exists(disk, loc) then Err(FsError(ENOENT, "scandir", PathOf(env, loc)))
    else
      var raw :- env.reader(Area(disk, archived)[name]);
      var normalized :- NormalizeConfig(raw, env.prune);
      ValidateConfig(Stamp(env, normalized, name, archived))
  }

  /** `load({name, archived})`. */
  function Load(env: Env, st: State, name: string, archived: bool): (o: Outcome)
    ensures name == "" ==> o == Failed(st, "Project name is required")
    ensures name != "" && (IsLoaded(st, name) || name in st.loading) ==> o == Done(st)
    ensures o.state.loading == st.loading && o.state.disk == st.disk
    ensures o.error.Some? ==> o.state == st && o.events == []
    ensures o.error.None? && o.state != st ==>
      && !IsLoaded(st, name) && name !in st.loading
      && |o.state.configs| == |st.configs| + 1
      && o.state.configs[..|st.configs|] == st.configs
      && var c := o.state.configs[|st.configs|];
        && NameIs(c, name) && IsArchived(c) == archived && LoadedConfig(env, c)
        && o.events == [ProjectLoaded(c)]
    ensures o.error.None? && o.state == st ==> o.events == []
    ensures name != "" && !IsLoaded(st, name) && name !in st.loading ==>
      (o.error.None? <==> ReadConfig(env, st.disk, name, archived).Ok?)
  {
    if name == "" then Failed(st, "Project name is required")
    else if IsLoaded(st, name) || name in st.loading then Done(st)
    else
      match ReadConfig(env, st.disk, name, archived)
      case Err(e) => Outcome(st, [], Some(e))
      case Ok(c) =>
        var st' := st.(configs := st.configs + [c]);
        assert st'.configs[..|st.configs|] == st.configs;
        Outcome(st', [ProjectLoaded(c)], None)
  }

  /** The names a plain object `{}` answers for through `Object.prototype`
      that also match the project-name pattern: reading any of them gives a
      truthy value (a function, or the prototype itself for `__proto__`). */
  const InheritedKeys: set<string> := {
    "constructor", "hasOwnProperty", "isPrototypeOf", "propertyIsEnumerable",
    "toLocaleString", "toString", "valueOf", "__proto__",
    "__defineGetter__", "__defineSetter__", "__lookupGetter__", "__lookupSetter__"}

  /** `load` as written: `loadingProjectsHash` is a plain object, so the test
      `loadingProjectsHash[name]` also holds for an inherited property, and a
      project with such a name is taken to be loading already. */
  function LoadAsWritten(env: Env, st: State, name: string, archived: bool): (o: Outcome)
    ensures name !in InheritedKeys ==> o == Load(env, st, name, archived)
    ensures name in InheritedKeys ==> o == Done(st)
  {
    if name == "" then Failed(st, "Project name is required")
    else if IsLoaded(st, name) || name in st.loading || name in InheritedKeys then Done(st)
    else Load(env, st, name, archived)
  }

  /** A project directory named `constructor` holding a valid configuration:
      the load as written reports success and registers nothing, where the
      own-property test registers the project. */
  lemma LoadAsWrittenSkipsInherited(env: Env, st: State, archived: bool)
    requires !IsLoaded(st, "constructor") && "constructor" !in st.loading
    requires ReadConfig(env, st.disk, "constructor", archived).Ok?
    ensures LoadAsWritten(env, st, "constructor", archived) == Outcome(st, [], None)
    ensures !IsLoaded(LoadAsWritten(env, st, "constructor", archived).state, "constructor")
    ensures IsLoaded(Load(env, st, "constructor", archived).state, "constructor")
    ensures Load(env, st, "constructor", archived).error.None?
  {
    LoadLeavesLoaded(env, st, "constructor", archived);
  }

  // ---------------------------------------------------------------------
  // loadAll

  /** The loads `loadAll` starts, in order. A name whose load was already
      started in the batch is skipped, as `loadingProjectsHash` (or the loaded
      configuration) makes that later `load` return at once. The effects are
      those of running the loads one after another; the error reported is the
      first one in batch order. */
  function LoadBatch(env: Env, st: State, batch: seq<(string, bool)>, started: set<string>): (o: Outcome)
    ensures o.state.loading == st.loading && o.state.disk == st.disk
    ensures |o.state.configs| >= |st.configs| && o.state.configs[..|st.configs|] == st.configs
    decreases |batch|
  {
    if |batch| == 0 then Done(st)
    else
      var name := batch[0].0;
      var first := if name in started then Done(st) else Load(env, st, name, batch[0].1);
      var rest := LoadBatch(env, first.state, batch[1..], started + {name});
      assert rest.state.configs[..|st.configs|] == rest.state.configs[..|first.state.configs|][..|st.configs|];
      Outcome(rest.state, first.events + rest.events, if first.error.Some? then first.error else rest.error)
  }

  /** `names` is what `fs.readdir` gives for `area`: every entry, each once
      or more, in the order the file system lists them. */
  predicate ListsArea(names: seq<string>, area: map<string, Files>) {
    (set d | d in names) == area.Keys
  }

  /** `loadAll`: load every directory of the active area, then every directory
      of the archive area as archived. `dirs` and `archivedDirs` are the
      directory listings; `junk` recognises system files the source skips. */
  function LoadAll(env: Env, st: State, dirs: seq<string>, archivedDirs: seq<string>, junk: string -> bool): (o: Outcome)
    requires ListsArea(dirs, st.disk.active) && ListsArea(archivedDirs, st.disk.archived)
    ensures o.state.loading == st.loading && o.state.disk == st.disk
    ensures |o.state.configs| >= |st.configs| && o.state.configs[..|st.configs|] == st.configs
  {
    LoadBatch(env, st, Listing(dirs, archivedDirs, junk), {})
  }

  /** The loads `loadAll` starts: the active directories, then the archived
      ones, junk files left out. */
  function Listing(dirs: seq<string>, archivedDirs: seq<string>, junk: string -> bool): (batch: seq<(string, bool)>)
    ensures forall e :: e in batch <==> !junk(e.0) && ((!e.1 && e.0 in dirs) || (e.1 && e.0 in archivedDirs))
  {
    var active := seq(|dirs|, i requires 0 <= i < |dirs| => (dirs[i], false));
    var archived := seq(|archivedDirs|, i requires 0 <= i < |archivedDirs| => (archivedDirs[i], true));
    var all := active + archived;
    forall e: (string, bool) | !e.1 && e.0 in dirs ensures e in all {
      var i :| 0 <= i < |dirs| && dirs[i] == e.0;
      assert all[i] == e;
    }
    forall e: (string, bool) | e.1 && e.0 in archivedDirs ensures e in all {
      var i :| 0 <= i < |archivedDirs| && archivedDirs[i] == e.0;
      assert all[|active| + i] == e;
    }
    Keep(all, junk)
  }

  /** The entries of a batch whose name is not junk, in order. */
  function Keep(batch: seq<(string, bool)>, junk: string -> bool): (r: seq<(string, bool)>)
    ensures forall e :: e in r <==> e in batch && !junk(e.0)
    decreases |batch|
  {
    if |batch| == 0 then []
    else
      var rest := Keep(batch[1..], junk);
      assert forall e :: e in batch <==> e == batch[0] || e in batch[1..];
      if junk(batch[0].0) then rest else [batch[0]] + rest
  }

  // ---------------------------------------------------------------------
  // unload

  function RemoveAt(configs: seq<Fields>, i: nat): (r: seq<Fields>)
    requires i < |configs|
    ensures |r| == |configs| - 1
    ensures r[..i] == configs[..i] && r[i..] == configs[i + 1..]
    ensures forall j :: 0 <= j < |r| ==> r[j] == configs[if j < i then j else j + 1]
  {
    configs[..i] + configs[i + 1..]
  }

  /** `unload({name})`. */
  function Unload(st: State, name: string): (o: Outcome)
    ensures !IsLoaded(st, name) ==>
      o == Failed(st, "Can`t unload not loaded project: \"" + name + "\"")
    ensures IsLoaded(st, name) ==>
      && o.error.None?
      && var i := FindIndex(st.configs, name);
        && o.state == st.(configs := RemoveAt(st.configs, i))
        && o.events == [ProjectUnloaded(st.configs[i])]
        && Get(st, name) == Some(st.configs[i])
  {
    var i := FindIndex(st.configs, name);
    if i == -1 then Failed(st, "Can`t unload not loaded project: \"" + name + "\"")
    else Outcome(st.(configs := RemoveAt(st.configs, i)), [ProjectUnloaded(st.configs[i])], None)
  }

  // ---------------------------------------------------------------------
  // archive / unarchive / reload

  /** The pipeline shared by archive, unarchive and rename: unload the
      project, rename its directory, and load it from the new place. */
  function UnloadMoveLoad(env: Env, st: State, name: string, from: Location, to: Location): (o: Outcome)
    ensures !IsLoaded(st, name) ==> o == Failed(st, "Can`t unload not loaded project: \"" + name + "\"")
    ensures o.state.loading == st.loading
    ensures IsLoaded(st, name) ==> o.events != [] && o.events[0] == ProjectUnloaded(Get(st, name).value)
    ensures o.error.None? ==> MoveDir(env, st.disk, from, to) == Ok(o.state.disk)
  {
    var unloaded := Unload(st, name);
    if unloaded.error.Some? then unloaded
    else
      match MoveDir(env, unloaded.state.disk, from, to)
      case Err(e) => Outcome(unloaded.state, unloaded.events, Some(e))
      case Ok(disk) => AndThen(unloaded, Load(env, unloaded.state.(disk := disk), to.name, to.archived))
  }

  /** `_archiveUnarchive({name, action})`. */
  function ArchiveUnarchive(env: Env, st: State, name: string, action: string): (o: Outcome)
    ensures name == "" ==> o == Failed(st, "Project name is required")
    ensures name != "" && !IsLoaded(st, name) ==>
      o == Failed(st, "Can`t find project \"" + name + "\" for " + action)
    ensures name != "" && IsLoaded(st, name) && action == "archive" && IsArchived(Get(st, name).value) ==>
      o == Failed(st, "Project \"" + name + "\" already archived")
    ensures name != "" && IsLoaded(st, name) && action == "unarchive" && !IsArchived(Get(st, name).value) ==>
      o == Failed(st, "Project \"" + name + "\" is not archived")
    ensures action != "archive" && action != "unarchive" && name != "" && IsLoaded(st, name) ==>
      o == Failed(st, "Unknown action: " + action)
  {
    if name == "" then Failed(st, "Project name is required")
    else
      match Get(st, name)
      case None => Failed(st, "Can`t find project \"" + name + "\" for " + action)
      case Some(project) =>
        if action == "archive" && IsArchived(project) then
          Failed(st, "Project \"" + name + "\" already archived")
        else if action == "unarchive" && !IsArchived(project) then
          Failed(st, "Project \"" + name + "\" is not archived")
        else if action != "archive" && action != "unarchive" then
          Failed(st, "Unknown action: " + action)
        else
          UnloadMoveLoad(env, st, name, Location(IsArchived(project), name), Location(action == "archive", name))
  }

  /** `archive({name})`: only a loaded project that is not archived can be archived. */
  function Archive(env: Env, st: State, name: string): (o: Outcome)
    ensures o.error.None? ==> name != "" && IsLoaded(st, name) && !IsArchived(Get(st, name).value)
    ensures name != "" && IsLoaded(st, name) && IsArchived(Get(st, name).value) ==>
      o == Failed(st, "Project \"" + name + "\" already archived")
  {
    ArchiveUnarchive(env, st, name, "archive")
  }

  /** `unarchive({name})`: only a loaded, archived project can be unarchived. */
  function Unarchive(env: Env, st: State, name: string): (o: Outcome)
    ensures o.error.None? ==> name != "" && IsLoaded(st, name) && IsArchived(Get(st, name).value)
    ensures name != "" && IsLoaded(st, name) && !IsArchived(Get(st, name).value) ==>
      o == Failed(st, "Project \"" + name + "\" is not archived")
  {
    ArchiveUnarchive(env, st, name, "unarchive")
  }

  /** `reload({name})`: unload when loaded, then load, keeping the archived
      flag of the configuration that was loaded. */
  function Reload(env: Env, st: State, name: string): (o: Outcome)
    ensures !IsLoaded(st, name) ==> o == Load(env, st, name, false)
    ensures IsLoaded(st, name) ==> o.events != [] && o.events[0] == ProjectUnloaded(Get(st, name).value)
    ensures IsLoaded(st, name) ==>
      var unloaded := Unload(st, name);
      o == AndThen(unloaded, Load(env, unloaded.state, name, IsArchived(Get(st, name).value)))
  {
    match Get(st, name)
    case None => Load(env, st, name, false)
    case Some(project) =>
      var archived := Has(project, "archived") && Truthy(Lookup(project, "archived"));
      assert archived == IsArchived(project);
      var unloaded := Unload(st, name);
      AndThen(unloaded, Load(env, unloaded.state, name, archived))
  }

  // ---------------------------------------------------------------------
  // remove / rename

  /** `remove({name})`. The build history in the database is not part of this
      model; `rmResult` is the outcome of `rm -Rf <dir>`. The project is
      unloaded whatever `rm` reports, and its directory is gone when `rm` succeeds. */
  function Remove(env: Env, st: State, name: string, rmResult: Option<Error>): (o: Outcome)
    ensures name == "" ==> o == Failed(st, "Project name is required")
    ensures name != "" && !IsLoaded(st, name) ==>
      o == Failed(st, "Can`t find project \"" + name + "\" for removing")
    ensures name != "" && IsLoaded(st, name) ==>
      && o.state.configs == Unload(st, name).state.configs
      && o.events == Unload(st, name).events
      && o.error == rmResult
      && (rmResult.None? ==> !Exists(o.state.disk, Location(IsArchived(Get(st, name).value), name)))
  {
    if name == "" then Failed(st, "Project name is required")
    else
      match Get(st, name)
      case None => Failed(st, "Can`t find project \"" + name + "\" for removing")
      case Some(project) =>
        var unloaded := Unload(st, name);
        var archived := IsArchived(project);
        var disk := if rmResult.None? then WithArea(st.disk, archived, Area(st.disk, archived) - {name}) else st.disk;
        Outcome(unloaded.state.(disk := disk), unloaded.events, rmResult)
  }

  /** `rename({name, newName})`. The rewrite of stored builds is not part of this model. */
  function Rename(env: Env, st: State, name: string, newName: string): (o: Outcome)
    ensures name == "" ==> o == Failed(st, "Project name is required")
    ensures name != "" && newName == "" ==> o == Failed(st, "Project new name is required")
    ensures name != "" && newName != "" && !IsLoaded(st, name) ==>
      o == Failed(st, "Can`t find project \"" + name + "\" for rename")
  {
    if name == "" then Failed(st, "Project name is required")
    else if newName == "" then Failed(st, "Project new name is required")
    else
      match Get(st, name)
      case None => Failed(st, "Can`t find project \"" + name + "\" for rename")
      case Some(project) =>
        var archived := IsArchived(project);
        UnloadMoveLoad(env, st, name, Location(archived, name), Location(archived, newName))
  }

  // ---------------------------------------------------------------------
  // setConfig / create

  /** Where `setConfig` writes: the directory of a loaded project, or an explicit existing directory. */
  function ConfigTarget(env: Env, st: State, projectName: string, projectDir: Option<Location>): (r: Result<Location>)
    ensures projectName != "" ==> (r.Ok? <==> IsLoaded(st, projectName))
    ensures projectName != "" && r.Ok? ==> r.value == Location(IsArchived(Get(st, projectName).value), projectName)
    ensures projectName == "" && projectDir.Some? ==> (r.Ok? <==> Exists(st.disk, projectDir.value))
    ensures projectName == "" && projectDir.Some? && r.Ok? ==> r.value == projectDir.value
    ensures projectName == "" && projectDir.None? ==> r.Err?
  {
    if projectName != "" then
      match Get(st, projectName)
      case None => Err(Fail("Project \"" + projectName + "\" doesn`t exist"))
      case Some(project) => Ok(Location(IsArchived(project), projectName))
    else if projectDir.Some? then
      if Exists(st.disk, projectDir.value) then Ok(projectDir.value)
      else Err(Fail("Project dir \"" + PathOf(env, projectDir.value) + "\" doesn`t exist"))
    else Err(Fail("`projectName` or `projectDir` option is required"))
  }

  /** The file `setConfig` writes: a structured configuration is validated and
      serialised as `config.json`; otherwise the literal file is written. */
  function FileToWrite(env: Env, config: Option<Fields>, configFile: Option<ConfigFile>): (r: Result<ConfigFile>)
    ensures config.Some? ==> (r.Ok? <==> ValidConfig(config.value))
    ensures config.Some? && r.Ok? ==> r.value == ConfigFile("config.json", env.stringify(Obj(config.value)))
    ensures config.Some? && r.Err? ==> StartsWith(r.error.message, ValidationPrefix(config.value))
    ensures config.None? ==> (r.Ok? <==> configFile.Some?)
    ensures config.None? && configFile.Some? ==> r == Ok(configFile.value)
  {
    match config
    case Some(c) =>
      var valid :- ValidateConfig(c);
      Ok(ConfigFile("config.json", env.stringify(Obj(valid))))
    case None =>
      if configFile.Some? then Ok(configFile.value)
      else Err(Fail("`config` or `configFile` option is required"))
  }

  function WriteFile(disk: Disk, loc: Location, file: ConfigFile): (d: Disk)
    requires Exists(disk, loc)
    ensures FilesAt(d, loc) == Some(FilesAt(disk, loc).value[file.name := file.content])
    ensures forall l :: l != loc ==> FilesAt(d, l) == FilesAt(disk, l)
  {
    var area := Area(disk, loc.archived);
    WithArea(disk, loc.archived, area[loc.name := area[loc.name][file.name := file.content]])
  }

  /** `setConfig({projectName | projectDir, config | configFile, load})`. */
  function SetConfig(env: Env, st: State, projectName: string, projectDir: Option<Location>,
                     config: Option<Fields>, configFile: Option<ConfigFile>, load: bool): (o: Outcome)
    ensures ConfigTarget(env, st, projectName, projectDir).Err? ==>
      o == Outcome(st, [], Some(ConfigTarget(env, st, projectName, projectDir).error))
    ensures ConfigTarget(env, st, projectName, projectDir).Ok? && FileToWrite(env, config, configFile).Err? ==>
      o == Outcome(st, [], Some(FileToWrite(env, config, configFile).error))
    ensures ConfigTarget(env, st, projectName, projectDir).Ok? && FileToWrite(env, config, configFile).Ok? ==>
      var loc := ConfigTarget(env, st, projectName, projectDir).value;
      var file := FileToWrite(env, config, configFile).value;
      && (!Exists(st.disk, loc) ==> o.error.Some? && o.state == st)
      && (Exists(st.disk, loc) && !load ==> o == Done(st.(disk := WriteFile(st.disk, loc, file))))
  {
    match ConfigTarget(env, st, projectName, projectDir)
    case Err(e) => Outcome(st, [], Some(e))
    case Ok(loc) =>
      match FileToWrite(env, config, configFile)
      case Err(e) => Outcome(st, [], Some(e))
      case Ok(file) =>
        if !Exists(st.disk, loc) then
          Outcome(st, [], Some(FsError(ENOENT, "open", JoinPath(PathOf(env, loc), file.name))))
        else
          var written := st.(disk := WriteFile(st.disk, loc, file));
          var name := if projectName != "" then projectName else loc.name;
          if load then Reload(env, written, name) else Done(written)
  }

  /** `fs.rmdir`: only an empty directory is removed; a failure is only logged. */
  function RemoveIfEmpty(disk: Disk, loc: Location): (d: Disk)
    ensures FilesAt(disk, loc) == Some(map[]) ==> !Exists(d, loc)
    ensures FilesAt(disk, loc) != Some(map[]) ==> d == disk
  {
    if FilesAt(disk, loc) == Some(map[]) then
      WithArea(disk, loc.archived, Area(disk, loc.archived) - {loc.name})
    else disk
  }

  /** `create({name, config | configFile, load})`. */
  function Create(env: Env, st: State, name: string, config: Option<Fields>,
                  configFile: Option<ConfigFile>, load: bool): (o: Outcome)
    ensures name == "" ==> o == Failed(st, "Project name is required")
    ensures name != "" && (Exists(st.disk, Location(false, name)) || Exists(st.disk, Location(true, name))) ==>
      o == Failed(st, "Project \"" + name + "\" already exists")
    ensures o.error.None? ==> name != "" && !Exists(st.disk, Location(false, name)) && !Exists(st.disk, Location(true, name))
  {
    if name == "" then Failed(st, "Project name is required")
    else if Exists(st.disk, Location(false, name)) || Exists(st.disk, Location(true, name)) then
      Failed(st, "Project \"" + name + "\" already exists")
    else
      var dir := Location(false, name);
      var made := st.(disk := st.disk.(active := st.disk.active[name := map[]]));
      var written := SetConfig(env, made, "", Some(dir), config, configFile, load);
      if written.error.Some? then
        Outcome(written.state.(disk := RemoveIfEmpty(written.state.disk, dir)), written.events, written.error)
      else written
  }

  // ---------------------------------------------------------------------
  // Invariants: distinct names, and events that account for every change

  /** Replaying events on a set of loaded names: a project is announced as
      loaded only while not loaded, and as unloaded only while loaded. */
  function Replay(names: set<string>, events: seq<Event>): Option<set<string>>
    decreases |events|
  {
    if |events| == 0 then Some(names)
    else
      match events[0]
      case ProjectLoaded(c) =>
        if NameOf(c) in names then None else Replay(names + {NameOf(c)}, events[1..])
      case ProjectUnloaded(c) =>
        if NameOf(c) !in names then None else Replay(names - {NameOf(c)}, events[1..])
  }

  /** The events of an outcome account exactly for the change in loaded names. */
  predicate EventsAccountFor(before: State, o: Outcome) {
    Replay(Names(before.configs), o.events) == Some(Names(o.state.configs))
  }

  lemma {:induction false} ReplayAppend(names: set<string>, e1: seq<Event>, e2: seq<Event>)
    requires Replay(names, e1).Some?
    ensures Replay(names, e1 + e2) == Replay(Replay(names, e1).value, e2)
    decreases |e1|
  {
    if |e1| > 0 {
      var e := e1 + e2;
      assert e[0] == e1[0];
      assert e[1..] == e1[1..] + e2;
      match e1[0]
      case ProjectLoaded(c) => ReplayAppend(names + {NameOf(c)}, e1[1..], e2);
      case ProjectUnloaded(c) => ReplayAppend(names - {NameOf(c)}, e1[1..], e2);
    } else {
      assert e1 + e2 == e2;
    }
  }

  lemma NamesAppend(configs: seq<Fields>, c: Fields)
    ensures Names(configs + [c]) == Names(configs) + {NameOf(c)}
  {
    var xs := configs + [c];
    assert forall i :: 0 <= i < |configs| ==> xs[i] == configs[i];
    assert xs[|configs|] == c;
  }

  lemma NamesRemoveAt(configs: seq<Fields>, i: nat)
    requires i < |configs| && NamesDistinct(configs)
    ensures Names(RemoveAt(configs, i)) == Names(configs) - {NameOf(configs[i])}
  {
    var r := RemoveAt(configs, i);
    forall n | n in Names(configs) - {NameOf(configs[i])} ensures n in Names(r) {
      var j :| 0 <= j < |configs| && NameOf(configs[j]) == n;
      assert j != i;
      var k := if j < i then j else j - 1;
      assert r[k] == configs[j];
      assert NameOf(r[k]) in Names(r);
    }
    forall n | n in Names(r) ensures n in Names(configs) - {NameOf(configs[i])} {
      var j :| 0 <= j < |r| && NameOf(r[j]) == n;
      var k := if j < i then j else j + 1;
      assert r[j] == configs[k] && k != i;
      assert NameOf(configs[k]) in Names(configs);
    }
  }

  /** In a well-formed collection a name is loaded exactly when it is among the names. */
  lemma LoadedIffNamed(env: Env, st: State, name: string)
    requires WellFormed(env, st)
    ensures IsLoaded(st, name) <==> name in Names(st.configs)
  {
    if name in Names(st.configs) {
      var j :| 0 <= j < |st.configs| && NameOf(st.configs[j]) == name;
      assert NameIs(st.configs[j], name);
    }
  }

  /** In a well-formed collection the configuration `get` finds is the only one with that name. */
  lemma GetUnique(env: Env, st: State, k: nat)
    requires WellFormed(env, st) && k < |st.configs|
    ensures Get(st, NameOf(st.configs[k])) == Some(st.configs[k])
  {
    var name := NameOf(st.configs[k]);
    assert NameIs(st.configs[k], name) by {
      LoadedNameIsValid(env, st.configs[k]);
    }
    var j := FindIndex(st.configs, name);
    FirstNamedIsOnly(st.configs, name, j, k);
  }

  lemma FirstNamedIsOnly(configs: seq<Fields>, name: string, j: int, k: nat)
    requires NamesDistinct(configs) && k < |configs| && NameIs(configs[k], name)
    requires j == FindIndex(configs, name)
    ensures j == k
  {
    assert j >= 0;
    assert NameOf(configs[j]) == name && NameOf(configs[k]) == name;
  }

  lemma RemoveAtWellFormed(env: Env, st: State, i: nat)
    requires WellFormed(env, st) && i < |st.configs|
    ensures WellFormed(env, st.(configs := RemoveAt(st.configs, i)))
  {
    var r := RemoveAt(st.configs, i);
    forall a, b | 0 <= a < b < |r| ensures NameOf(r[a]) != NameOf(r[b]) {
      assert r[a] == st.configs[if a < i then a else a + 1];
      assert r[b] == st.configs[if b < i then b else b + 1];
    }
  }

  /** `load` keeps the collection well formed, and its event accounts for what it added. */
  lemma LoadSound(env: Env, st: State, name: string, archived: bool)
    requires WellFormed(env, st)
    ensures WellFormed(env, Load(env, st, name, archived).state)
    ensures EventsAccountFor(st, Load(env, st, name, archived))
  {
    var o := Load(env, st, name, archived);
    if o.state != st {
      var c := o.state.configs[|st.configs|];
      assert o.state.configs == st.configs + [c];
      assert o.events == [ProjectLoaded(c)];
      LoadedIffNamed(env, st, name);
      assert NameOf(c) == name;
      AppendSound(env, st, c);
      assert o.state == st.(configs := st.configs + [c]);
    }
  }

  /** Registering a loaded configuration under a new name keeps the
      collection well formed, and its `projectLoaded` event accounts for it. */
  lemma AppendSound(env: Env, st: State, c: Fields)
    requires WellFormed(env, st) && LoadedConfig(env, c) && NameOf(c) !in Names(st.configs)
    ensures WellFormed(env, st.(configs := st.configs + [c]))
    ensures Replay(Names(st.configs), [ProjectLoaded(c)]) == Some(Names(st.configs + [c]))
  {
    var xs := st.configs + [c];
    NamesAppend(st.configs, c);
    forall i, j | 0 <= i < j < |xs| ensures NameOf(xs[i]) != NameOf(xs[j]) {
      if j == |st.configs| {
        assert NameOf(xs[i]) in Names(st.configs);
      } else {
        assert xs[i] == st.configs[i] && xs[j] == st.configs[j];
      }
    }
    forall i | 0 <= i < |xs| ensures LoadedConfig(env, xs[i]) {
      if i < |st.configs| {
        assert xs[i] == st.configs[i];
      }
    }
    assert [ProjectLoaded(c)][1..] == [];
  }

  /** `unload` keeps the collection well formed, and its event accounts for what it removed. */
  lemma UnloadSound(env: Env, st: State, name: string)
    requires WellFormed(env, st)
    ensures WellFormed(env, Unload(st, name).state)
    ensures EventsAccountFor(st, Unload(st, name))
  {
    if IsLoaded(st, name) {
      var i := FindIndex(st.configs, name);
      RemoveAtWellFormed(env, st, i);
      NamesRemoveAt(st.configs, i);
      assert NameOf(st.configs[i]) in Names(st.configs);
    }
  }

  /** Running `second` after `first` keeps both invariants when each step keeps them. */
  lemma AndThenSound(env: Env, st: State, first: Outcome, second: Outcome)
    requires WellFormed(env, first.state) && EventsAccountFor(st, first)
    requires WellFormed(env, second.state) && EventsAccountFor(first.state, second)
    ensures WellFormed(env, AndThen(first, second).state)
    ensures EventsAccountFor(st, AndThen(first, second))
  {
    if first.error.None? {
      ReplayAppend(Names(st.configs), first.events, second.events);
    }
  }

  lemma UnloadMoveLoadSound(env: Env, st: State, name: string, from: Location, to: Location)
    requires WellFormed(env, st)
    ensures WellFormed(env, UnloadMoveLoad(env, st, name, from, to).state)
    ensures EventsAccountFor(st, UnloadMoveLoad(env, st, name, from, to))
  {
    var unloaded := Unload(st, name);
    UnloadSound(env, st, name);
    var o := UnloadMoveLoad(env, st, name, from, to);
    if unloaded.error.Some? {
      assert o == unloaded;
    } else {
      var moved := MoveDir(env, unloaded.state.disk, from, to);
      if moved.Ok? {
        MovedLoadSound(env, st, unloaded, moved.value, to);
        assert o == AndThen(unloaded, Load(env, unloaded.state.(disk := moved.value), to.name, to.archived));
      } else {
        assert o.state == unloaded.state && o.events == unloaded.events;
      }
    }
  }

  /** The load that follows a successful unload and move keeps both invariants. */
  lemma MovedLoadSound(env: Env, st: State, unloaded: Outcome, disk: Disk, to: Location)
    requires WellFormed(env, unloaded.state) && EventsAccountFor(st, unloaded) && unloaded.error.None?
    ensures var o := AndThen(unloaded, Load(env, unloaded.state.(disk := disk), to.name, to.archived));
      WellFormed(env, o.state) && EventsAccountFor(st, o)
  {
    var next := unloaded.state.(disk := disk);
    LoadSound(env, next, to.name, to.archived);
    AndThenSound(env, st, unloaded, Load(env, next, to.name, to.archived));
  }

  lemma ArchiveUnarchiveSound(env: Env, st: State, name: string, action: string)
    requires WellFormed(env, st)
    ensures WellFormed(env, ArchiveUnarchive(env, st, name, action).state)
    ensures EventsAccountFor(st, ArchiveUnarchive(env, st, name, action))
  {
    var o := ArchiveUnarchive(env, st, name, action);
    if name == "" || Get(st, name).None? {
      assert o.state == st && o.events == [];
    } else {
      var project := Get(st, name).value;
      if (action == "archive" && IsArchived(project)) || (action == "unarchive" && !IsArchived(project))
         || (action != "archive" && action != "unarchive") {
        assert o.state == st && o.events == [];
      } else {
        var from, to := Location(IsArchived(project), name), Location(action == "archive", name);
        assert o == UnloadMoveLoad(env, st, name, from, to);
        UnloadMoveLoadSound(env, st, name, from, to);
      }
    }
  }

  lemma ReloadSound(env: Env, st: State, name: string)
    requires WellFormed(env, st)
    ensures WellFormed(env, Reload(env, st, name).state)
    ensures EventsAccountFor(st, Reload(env, st, name))
  {
    match Get(st, name)
    case None => LoadSound(env, st, name, false);
    case Some(project) =>
      var archived := Has(project, "archived") && Truthy(Lookup(project, "archived"));
      var unloaded := Unload(st, name);
      UnloadSound(env, st, name);
      LoadSound(env, unloaded.state, name, archived);
      AndThenSound(env, st, unloaded, Load(env, unloaded.state, name, archived));
  }

  lemma RemoveSound(env: Env, st: State, name: string, rmResult: Option<Error>)
    requires WellFormed(env, st)
    ensures WellFormed(env, Remove(env, st, name, rmResult).state)
    ensures EventsAccountFor(st, Remove(env, st, name, rmResult))
  {
    UnloadSound(env, st, name);
  }

  lemma RenameSound(env: Env, st: State, name: string, newName: string)
    requires WellFormed(env, st)
    ensures WellFormed(env, Rename(env, st, name, newName).state)
    ensures EventsAccountFor(st, Rename(env, st, name, newName))
  {
    if name != "" && newName != "" && IsLoaded(st, name) {
      var archived := IsArchived(Get(st, name).value);
      UnloadMoveLoadSound(env, st, name, Location(archived, name), Location(archived, newName));
    }
  }

  lemma SetConfigSound(env: Env, st: State, projectName: string, projectDir: Option<Location>,
                       config: Option<Fields>, configFile: Option<ConfigFile>, load: bool)
    requires WellFormed(env, st)
    ensures WellFormed(env, SetConfig(env, st, projectName, projectDir, config, configFile, load).state)
    ensures EventsAccountFor(st, SetConfig(env, st, projectName, projectDir, config, configFile, load))
  {
    var target := ConfigTarget(env, st, projectName, projectDir);
    var file := FileToWrite(env, config, configFile);
    if target.Ok? && file.Ok? && Exists(st.disk, target.value) {
      var written := st.(disk := WriteFile(st.disk, target.value, file.value));
      var name := if projectName != "" then projectName else target.value.name;
      ReloadSound(env, written, name);
    }
  }

  lemma CreateSound(env: Env, st: State, name: string, config: Option<Fields>,
                    configFile: Option<ConfigFile>, load: bool)
    requires WellFormed(env, st)
    ensures WellFormed(env, Create(env, st, name, config, configFile, load).state)
    ensures EventsAccountFor(st, Create(env, st, name, config, configFile, load))
  {
    if name != "" && !Exists(st.disk, Location(false, name)) && !Exists(st.disk, Location(true, name)) {
      var made := st.(disk := st.disk.(active := st.disk.active[name := map[]]));
      SetConfigSound(env, made, "", Some(Location(false, name)), config, configFile, load);
    }
  }

  // ---------------------------------------------------------------------
  // Properties of single operations

  /** Loading twice is loading once: the second call finds the project loaded (or in flight). */
  lemma LoadIdempotent(env: Env, st: State, name: string, archived: bool)
    requires name != ""
    requires Load(env, st, name, archived).error.None?
    ensures var once := Load(env, st, name, archived);
      Load(env, once.state, name, archived) == Done(once.state)
  {
    var once := Load(env, st, name, archived);
    if once.state != st {
      assert NameIs(once.state.configs[|st.configs|], name);
    }
  }

  /** A project's files determine what a load registers. */
  lemma ReadConfigDependsOnFiles(env: Env, d1: Disk, d2: Disk, name: string, archived: bool)
    requires FilesAt(d1, Location(archived, name)) == FilesAt(d2, Location(archived, name))
    ensures ReadConfig(env, d1, name, archived) == ReadConfig(env, d2, name, archived)
  {
  }

  /** After a successful load of a name that was neither loaded nor in flight,
      `get` finds exactly the configuration read from the directory. */
  lemma LoadedIsFound(env: Env, st: State, name: string, archived: bool)
    requires WellFormed(env, st) && name != "" && !IsLoaded(st, name) && name !in st.loading
    requires Load(env, st, name, archived).error.None?
    ensures ReadConfig(env, st.disk, name, archived).Ok?
    ensures Get(Load(env, st, name, archived).state, name) == Some(ReadConfig(env, st.disk, name, archived).value)
  {
    var o := Load(env, st, name, archived);
    LoadSound(env, st, name, archived);
    GetUnique(env, o.state, |st.configs|);
  }

  /** A successful unload-move-load leaves the project registered under its new
      location, read from the directory that was moved there. */
  lemma UnloadMoveLoadResult(env: Env, st: State, name: string, from: Location, to: Location)
    requires WellFormed(env, st) && IsLoaded(st, name)
    requires to.name !in st.loading && (to.name == name || !IsLoaded(st, to.name))
    requires UnloadMoveLoad(env, st, name, from, to).error.None?
    ensures var o := UnloadMoveLoad(env, st, name, from, to);
      && MoveDir(env, st.disk, from, to) == Ok(o.state.disk)
      && o.state.loading == st.loading
      && ReadConfig(env, o.state.disk, to.name, to.archived).Ok?
      && Get(o.state, to.name) == Some(ReadConfig(env, o.state.disk, to.name, to.archived).value)
      && (to.name != name ==> !IsLoaded(o.state, name))
  {
    var unloaded := Unload(st, name);
    UnloadSound(env, st, name);
    var i := FindIndex(st.configs, name);
    NamesRemoveAt(st.configs, i);
    LoadedIffNamed(env, unloaded.state, to.name);
    LoadedIffNamed(env, st, to.name);
    var next := unloaded.state.(disk := MoveDir(env, st.disk, from, to).value);
    LoadedIsFound(env, next, to.name, to.archived);
    if to.name != name {
      var o := Load(env, next, to.name, to.archived);
      LoadSound(env, next, to.name, to.archived);
      LoadedIffNamed(env, unloaded.state, name);
      LoadedIffNamed(env, o.state, name);
      NamesAppend(next.configs, o.state.configs[|next.configs|]);
      assert o.state.configs == next.configs + [o.state.configs[|next.configs|]];
    }
  }

  /** An archive or unarchive that succeeds is a move of a loaded project from
      the area its flag names to the other one. */
  lemma ArchiveUnarchiveIsMove(env: Env, st: State, name: string, action: string)
    requires ArchiveUnarchive(env, st, name, action).error.None?
    ensures name != "" && IsLoaded(st, name)
    ensures action == "archive" || action == "unarchive"
    ensures IsArchived(Get(st, name).value) == (action != "archive")
    ensures ArchiveUnarchive(env, st, name, action)
      == UnloadMoveLoad(env, st, name, Location(action != "archive", name), Location(action == "archive", name))
  {
  }

  /** A successful archive leaves the project loaded with `archived` set and its
      directory in the archive area; a successful unarchive the reverse. */
  lemma ArchiveSetsFlag(env: Env, st: State, name: string, action: string)
    requires WellFormed(env, st) && name !in st.loading
    requires ArchiveUnarchive(env, st, name, action).error.None?
    ensures action == "archive" || action == "unarchive"
    ensures var o := ArchiveUnarchive(env, st, name, action);
      && Get(o.state, name).Some?
      && IsArchived(Get(o.state, name).value) == (action == "archive")
      && FilesAt(o.state.disk, Location(action == "archive", name)) == FilesAt(st.disk, Location(action != "archive", name))
      && !Exists(o.state.disk, Location(action != "archive", name))
  {
    var from, to := Location(action != "archive", name), Location(action == "archive", name);
    ArchiveUnarchiveIsMove(env, st, name, action);
    var o := ArchiveUnarchive(env, st, name, action);
    UnloadMoveLoadResult(env, st, name, from, to);
    MovedFlag(env, st, o.state, from, to);
  }

  /** A project reloaded from the directory moved from `from` to `to` carries the flag of `to`. */
  lemma MovedFlag(env: Env, st: State, after: State, from: Location, to: Location)
    requires from.name == to.name && from != to
    requires MoveDir(env, st.disk, from, to) == Ok(after.disk)
    requires ReadConfig(env, after.disk, to.name, to.archived).Ok?
    requires Get(after, to.name) == Some(ReadConfig(env, after.disk, to.name, to.archived).value)
    ensures Get(after, to.name).Some? && IsArchived(Get(after, to.name).value) == to.archived
    ensures FilesAt(after.disk, to) == FilesAt(st.disk, from) && !Exists(after.disk, from)
  {
  }

  /** Archiving and then unarchiving a project whose loaded configuration is
      what its directory holds gives back the same configuration and the same
      directory contents. */
  lemma ArchiveUnarchiveRoundTrip(env: Env, st: State, name: string)
    requires WellFormed(env, st) && name !in st.loading
    requires IsLoaded(st, name)
    requires ReadConfig(env, st.disk, name, false) == Ok(Get(st, name).value)
    requires Archive(env, st, name).error.None?
    requires Unarchive(env, Archive(env, st, name).state, name).error.None?
    ensures var back := Unarchive(env, Archive(env, st, name).state, name).state;
      && Get(back, name) == Get(st, name)
      && FilesAt(back.disk, Location(false, name)) == FilesAt(st.disk, Location(false, name))
  {
    var active, archive := Location(false, name), Location(true, name);
    var archived := Archive(env, st, name).state;
    ArchiveUnarchiveIsMove(env, st, name, "archive");
    UnloadMoveLoadResult(env, st, name, active, archive);
    assert FilesAt(archived.disk, archive) == FilesAt(st.disk, active);
    ArchiveUnarchiveSound(env, st, name, "archive");
    var back := Unarchive(env, archived, name).state;
    ArchiveUnarchiveIsMove(env, archived, name, "unarchive");
    UnloadMoveLoadResult(env, archived, name, archive, active);
    assert FilesAt(back.disk, active) == FilesAt(archived.disk, archive);
    ReadConfigDependsOnFiles(env, st.disk, back.disk, name, false);
  }

  /** `reload` of a loaded project keeps its archived flag. */
  lemma ReloadKeepsArchived(env: Env, st: State, name: string)
    requires WellFormed(env, st) && name !in st.loading
    requires IsLoaded(st, name)
    requires Reload(env, st, name).error.None?
    ensures var o := Reload(env, st, name);
      Get(o.state, name).Some? && IsArchived(Get(o.state, name).value) == IsArchived(Get(st, name).value)
  {
    var project := Get(st, name).value;
    assert Has(project, "archived");
    var unloaded := Unload(st, name);
    UnloadSound(env, st, name);
    var i := FindIndex(st.configs, name);
    NamesRemoveAt(st.configs, i);
    LoadedIffNamed(env, unloaded.state, name);
    LoadedIsFound(env, unloaded.state, name, IsArchived(project));
  }

  /** A successful rename to a name not in use leaves the project under the new
      name only, with its directory moved to the new name in the same area. */
  lemma RenameMoves(env: Env, st: State, name: string, newName: string)
    requires WellFormed(env, st) && newName !in st.loading && newName != name
    requires !IsLoaded(st, newName)
    requires Rename(env, st, name, newName).error.None?
    ensures var o := Rename(env, st, name, newName);
      && Get(o.state, newName).Some? && !IsLoaded(o.state, name)
      && IsArchived(Get(o.state, newName).value) == IsArchived(Get(st, name).value)
      && !Exists(o.state.disk, Location(IsArchived(Get(st, name).value), name))
      && FilesAt(o.state.disk, Location(IsArchived(Get(st, name).value), newName))
         == FilesAt(st.disk, Location(IsArchived(Get(st, name).value), name))
  {
    var archived := IsArchived(Get(st, name).value);
    UnloadMoveLoadResult(env, st, name, Location(archived, name), Location(archived, newName));
  }

  /** Appending a configuration does not change which one `get` finds for a loaded name. */
  lemma {:induction false} FindIndexAppend(configs: seq<Fields>, c: Fields, name: string)
    requires FindIndex(configs, name) >= 0
    ensures FindIndex(configs + [c], name) == FindIndex(configs, name)
    decreases |configs|
  {
    var xs := configs + [c];
    assert xs[0] == configs[0];
    if !NameIs(configs[0], name) {
      assert xs[1..] == configs[1..] + [c];
      FindIndexAppend(configs[1..], c, name);
    }
  }

  /** Loading never unloads: a loaded name stays loaded, with the same configuration. */
  lemma LoadKeepsLoaded(env: Env, st: State, name: string, archived: bool, other: string)
    requires IsLoaded(st, other)
    ensures Get(Load(env, st, name, archived).state, other) == Get(st, other)
  {
    var o := Load(env, st, name, archived);
    if o.state != st {
      var c := o.state.configs[|st.configs|];
      assert o.state.configs == st.configs + [c];
      FindIndexAppend(st.configs, c, other);
    }
  }

  /** After a load that reports no error, the name is loaded (it may have been already). */
  lemma LoadLeavesLoaded(env: Env, st: State, name: string, archived: bool)
    requires name != "" && name !in st.loading
    requires Load(env, st, name, archived).error.None?
    ensures IsLoaded(Load(env, st, name, archived).state, name)
  {
    var o := Load(env, st, name, archived);
    if !IsLoaded(st, name) {
      assert NameIs(o.state.configs[|st.configs|], name);
    }
  }

  lemma {:induction false} LoadBatchSound(env: Env, st: State, batch: seq<(string, bool)>, started: set<string>)
    requires WellFormed(env, st)
    ensures WellFormed(env, LoadBatch(env, st, batch, started).state)
    ensures EventsAccountFor(st, LoadBatch(env, st, batch, started))
    decreases |batch|
  {
    if |batch| > 0 {
      var name := batch[0].0;
      var first := if name in started then Done(st) else Load(env, st, name, batch[0].1);
      LoadSound(env, st, name, batch[0].1);
      LoadBatchSound(env, first.state, batch[1..], started + {name});
      var rest := LoadBatch(env, first.state, batch[1..], started + {name});
      ReplayAppend(Names(st.configs), first.events, rest.events);
    }
  }

  /** A batch of loads never unloads anything, whatever errors it meets. */
  lemma {:induction false} LoadBatchKeepsLoaded(env: Env, st: State, batch: seq<(string, bool)>, started: set<string>, n: string)
    requires IsLoaded(st, n)
    ensures Get(LoadBatch(env, st, batch, started).state, n) == Get(st, n)
    decreases |batch|
  {
    if |batch| > 0 {
      var name := batch[0].0;
      var first := if name in started then Done(st) else Load(env, st, name, batch[0].1);
      LoadKeepsLoaded(env, st, name, batch[0].1, n);
      LoadBatchKeepsLoaded(env, first.state, batch[1..], started + {name}, n);
    }
  }

  /** One load of the batch that reports no error: the names started so far, and this one, are loaded after it. */
  lemma StartedStayLoaded(env: Env, st: State, name: string, archived: bool, started: set<string>)
    requires forall n :: n in started ==> IsLoaded(st, n)
    requires name != "" && name !in st.loading
    requires name in started || Load(env, st, name, archived).error.None?
    ensures var after := if name in started then st else Load(env, st, name, archived).state;
      forall n :: n in started + {name} ==> IsLoaded(after, n)
  {
    if name !in started {
      LoadLeavesLoaded(env, st, name, archived);
      forall n | n in started ensures IsLoaded(Load(env, st, name, archived).state, n) {
        LoadKeepsLoaded(env, st, name, archived, n);
      }
    }
  }

  /** When no load fails, every name of the batch is loaded afterwards. */
  lemma {:induction false} LoadBatchLoadsAll(env: Env, st: State, batch: seq<(string, bool)>, started: set<string>)
    requires forall n :: n in started ==> IsLoaded(st, n)
    requires forall i :: 0 <= i < |batch| ==> batch[i].0 != "" && batch[i].0 !in st.loading
    requires LoadBatch(env, st, batch, started).error.None?
    ensures forall i :: 0 <= i < |batch| ==> IsLoaded(LoadBatch(env, st, batch, started).state, batch[i].0)
    decreases |batch|
  {
    if |batch| > 0 {
      var name := batch[0].0;
      var first := if name in started then Done(st) else Load(env, st, name, batch[0].1);
      var rest := LoadBatch(env, first.state, batch[1..], started + {name});
      assert LoadBatch(env, st, batch, started)
        == Outcome(rest.state, first.events + rest.events, if first.error.Some? then first.error else rest.error);
      assert first.error.None? && rest.error.None?;
      StartedStayLoaded(env, st, name, batch[0].1, started);
      assert forall i :: 0 <= i < |batch[1..]| ==> batch[1..][i] == batch[i + 1];
      LoadBatchLoadsAll(env, first.state, batch[1..], started + {name});
      LoadBatchKeepsLoaded(env, first.state, batch[1..], started + {name}, name);
      HeadAndTailLoaded(rest.state, batch);
    }
  }

  lemma HeadAndTailLoaded(s: State, batch: seq<(string, bool)>)
    requires |batch| > 0 && IsLoaded(s, batch[0].0)
    requires forall i :: 0 <= i < |batch[1..]| ==> IsLoaded(s, batch[1..][i].0)
    ensures forall i :: 0 <= i < |batch| ==> IsLoaded(s, batch[i].0)
  {
    forall i | 0 <= i < |batch| ensures IsLoaded(s, batch[i].0) {
      if i > 0 {
        assert batch[i] == batch[1..][i - 1];
      }
    }
  }

  /** When no load fails and nothing was loading before, `loadAll` leaves
      every non-junk directory of both areas loaded. */
  lemma LoadAllLoadsEveryDir(env: Env, st: State, dirs: seq<string>, archivedDirs: seq<string>, junk: string -> bool)
    requires st.loading == {}
    requires ListsArea(dirs, st.disk.active) && ListsArea(archivedDirs, st.disk.archived)
    requires forall d :: d in dirs || d in archivedDirs ==> d != ""
    requires LoadAll(env, st, dirs, archivedDirs, junk).error.None?
    ensures forall d :: d in st.disk.active && !junk(d) ==> IsLoaded(LoadAll(env, st, dirs, archivedDirs, junk).state, d)
    ensures forall d :: d in st.disk.archived && !junk(d) ==> IsLoaded(LoadAll(env, st, dirs, archivedDirs, junk).state, d)
  {
    var batch := Listing(dirs, archivedDirs, junk);
    forall i | 0 <= i < |batch| ensures batch[i].0 != "" {
      assert batch[i] in batch;
    }
    LoadBatchLoadsAll(env, st, batch, {});
    forall d | d in st.disk.active && !junk(d) ensures IsLoaded(LoadBatch(env, st, batch, {}).state, d) {
      assert d in (set d | d in dirs);
      assert (d, false) in batch;
    }
    forall d | d in st.disk.archived && !junk(d) ensures IsLoaded(LoadBatch(env, st, batch, {}).state, d) {
      assert d in (set d | d in archivedDirs);
      assert (d, true) in batch;
    }
  }
}
