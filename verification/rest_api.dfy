/**
 The REST API server (nci-rest-api-server/lib/index.js): the routes of API
 version 0.1, their handlers, and the request listener that parses the URL
 and the body, finds the route and runs its handler.

 The project endpoints act on the project registry (module `Registry`). The
 build store, `querystring.parse`, `JSON.parse`, the outcome of `rm -Rf` and
 the configured access token are collaborators: they are fields of `Host`.
 A reply records the response, the registry afterwards, the registry events
 and the build a request queued, if any.
 */
module RestApi {
  import opened Text
  import opened Js
  import opened Router
  import Registry

  // ---------------------------------------------------------------------
  // Routes

  /** The handlers the API registers. */
  datatype Endpoint =
    | ListBuilds | GetBuild | RunBuild | PatchBuild
    | ListProjects | CreateProject | GetProject | RemoveProject | PatchProject

  const BuildsPath := "/api/0.1/builds"
  const BuildPath := "/api/0.1/builds/:id"
  const ProjectsPath := "/api/0.1/projects"
  const ProjectPath := "/api/0.1/projects/:name"

  /** The paths and handlers registered under each (lower-case) verb, in registration order. */
  function Table(verb: string): seq<(string, Endpoint)> {
    if verb == "get" then
      [(BuildsPath, ListBuilds), (BuildPath, GetBuild), (ProjectsPath, ListProjects), (ProjectPath, GetProject)]
    else if verb == "post" then
      [(BuildsPath, RunBuild), (ProjectsPath, CreateProject)]
    else if verb == "patch" then
      [(BuildPath, PatchBuild), (ProjectPath, PatchProject)]
    else if verb == "delete" then
      [(ProjectPath, RemoveProject)]
    else []
  }

  /** The routes `register` adds: one compiled route per entry of the table. */
  function Routes(verb: string): (routes: seq<Route<Endpoint>>)
    ensures |routes| == |Table(verb)|
    ensures forall i :: 0 <= i < |routes| ==> routes[i] == Register(Table(verb)[i].0, Table(verb)[i].1)
  {
    var t := Table(verb);
    seq(|t|, i requires 0 <= i < |t| => Register(t[i].0, t[i].1))
  }

  /** Every handler is reached through exactly one verb and one path. */
  function RouteOf(e: Endpoint): (string, string) {
    match e
    case ListBuilds => ("get", BuildsPath)
    case GetBuild => ("get", BuildPath)
    case RunBuild => ("post", BuildsPath)
    case PatchBuild => ("patch", BuildPath)
    case ListProjects => ("get", ProjectsPath)
    case CreateProject => ("post", ProjectsPath)
    case GetProject => ("get", ProjectPath)
    case RemoveProject => ("delete", ProjectPath)
    case PatchProject => ("patch", ProjectPath)
  }

  /** The table registers each handler under the verb and path `RouteOf` names ... */
  lemma RouteOfIsRegistered(e: Endpoint) returns (i: nat)
    ensures i < |Table(RouteOf(e).0)| && Table(RouteOf(e).0)[i] == (RouteOf(e).1, e)
  {
    match e
    case ListBuilds => i := 0;
    case GetBuild => i := 1;
    case RunBuild => i := 0;
    case PatchBuild => i := 0;
    case ListProjects => i := 2;
    case CreateProject => i := 1;
    case GetProject => i := 3;
    case RemoveProject => i := 0;
    case PatchProject => i := 1;
  }

  /** ... and under no other verb. */
  lemma RegisteredOnlyAtRouteOf(verb: string, i: nat)
    requires i < |Table(verb)|
    ensures verb == RouteOf(Table(verb)[i].1).0
  {
  }

  // ---------------------------------------------------------------------
  // Collaborators, requests and replies

  /** What `app.builds.getRecent` is asked for. */
  datatype RecentQuery = RecentQuery(limit: int, projectName: Option<Value>)

  /** The build store. An id is `Number(req.params.id)`; `None` is `NaN`. */
  datatype Builds = Builds(
    getRecent: RecentQuery -> Result<Value>,
    get: Option<int> -> Result<Value>,
    cancel: Option<int> -> Option<Error>)

  datatype Host = Host(
    env: Registry.Env,
    accessToken: string,
    rmResult: Option<Error>,
    builds: Builds,
    parseJson: string -> Result<Value>,
    parseQuery: Option<string> -> Fields)

  /** A request: its verb, its URL, and its body text (an error when the request stream fails). */
  datatype Request = Request(verb: string, url: string, body: Result<string>)

  /** A build `app.builds.create` is asked to queue (initiator `httpApi`). */
  datatype BuildRequest = BuildRequest(
    projectName: string,
    withScmChangesOnly: Value,
    queueQueued: Value,
    buildParams: Value,
    env: Value)

  /** `res.json(data)` (status 200), a bare status, the error passed to
      `next`, or `next()` for a URL outside the API. */
  datatype Response = Json(data: Value) | Status(code: nat) | Failure(error: Error) | PassOn

  datatype Reply = Reply(response: Response, state: Registry.State, events: seq<Registry.Event>, queued: Option<BuildRequest>)

  /** A reply that leaves the registry as it is. */
  function Answer(st: Registry.State, response: Response): Reply {
    Reply(response, st, [], None)
  }

  /** A reply to a registry operation: 204 when it succeeds, its error otherwise. */
  function Finish(o: Registry.Outcome): Reply {
    Reply(if o.error.Some? then Failure(o.error.value) else Status(204), o.state, o.events, None)
  }

  const AccessDenied := Fail("Access token doesn`t match")

  /** `body.token !== accessToken`. */
  predicate TokenMatches(host: Host, body: Value) {
    StrictEquals(Get(body, "token"), Str(host.accessToken))
  }

  // ---------------------------------------------------------------------
  // Reading request values

  /** A project name from a request value: a string as it is, any falsy value
      as the empty name the registry refuses, anything else as its string form. */
  function NameArg(v: Value): string {
    if v.Str? then v.s else if !Truthy(v) then "" else ToJsString(v)
  }

  /** `app.projects.get(v)`: only a string can equal a loaded project's name. */
  function FindProject(st: Registry.State, v: Value): (r: Option<Fields>)
    ensures r.Some? <==> v.Str? && Registry.IsLoaded(st, v.s)
  {
    if v.Str? then Registry.Get(st, v.s) else None
  }

  /** A `config` given as an object. */
  function ConfigArg(v: Value): Option<Fields> {
    if v.Obj? then Some(v.fields) else None
  }

  /** A `configFile` given as an object with a string `name` and `content`. */
  function ConfigFileArg(v: Value): Option<Registry.ConfigFile> {
    var name := Get(v, "name");
    var content := Get(v, "content");
    if name.Str? && content.Str? then Some(Registry.ConfigFile(name.s, content.s)) else None
  }

  /** `loadConfig`: the body's value when the body has the property, else true. */
  predicate LoadFlag(body: Value) {
    if body.Obj? && Has(body.fields, "loadConfig") then Truthy(Lookup(body.fields, "loadConfig")) else true
  }

  /** A route parameter (`req.params[key]`). */
  function Param(params: Option<Fields>, key: string): Value {
    if params.Some? then Lookup(params.value, key) else Undefined
  }

  /** The query of `GET /api/0.1/builds`: `Number(limit) || 20`, and the
      project filter when the query names a project. */
  function RecentQueryOf(query: Fields): (q: RecentQuery)
    ensures q.limit != 0
    ensures ToNumber(Lookup(query, "limit")).Some? && ToNumber(Lookup(query, "limit")).value != 0 ==>
      q.limit == ToNumber(Lookup(query, "limit")).value
    ensures (ToNumber(Lookup(query, "limit")).None? || ToNumber(Lookup(query, "limit")) == Some(0)) ==> q.limit == 20
    ensures q.projectName.Some? <==> Truthy(Lookup(query, "project"))
    ensures q.projectName.Some? ==> q.projectName.value == Lookup(query, "project")
  {
    var n := ToNumber(Lookup(query, "limit"));
    var project := Lookup(query, "project");
    RecentQuery(if n.Some? && n.value != 0 then n.value else 20, if Truthy(project) then Some(project) else None)
  }

  // ---------------------------------------------------------------------
  // Build handlers

  /** `GET /api/0.1/builds`: the recent builds, or the store's error. */
  function HandleListBuilds(host: Host, st: Registry.State, query: Fields): (r: Reply)
    ensures r.state == st && r.events == [] && r.queued.None?
    ensures var got := host.builds.getRecent(RecentQueryOf(query));
      && (got.Err? ==> r.response == Failure(got.error))
      && (got.Ok? ==> r.response.Json? && r.response.data.Obj? && Lookup(r.response.data.fields, "builds") == got.value)
  {
    match host.builds.getRecent(RecentQueryOf(query))
    case Err(e) => Answer(st, Failure(e))
    case Ok(builds) => Answer(st, Json(Obj([("builds", builds)])))
  }

  /** `GET /api/0.1/builds/:id`: the build with `Number(id)`; 404 when the store has none. */
  function HandleGetBuild(host: Host, st: Registry.State, params: Option<Fields>): (r: Reply)
    ensures r.state == st && r.events == [] && r.queued.None?
    ensures var got := host.builds.get(ToNumber(Param(params, "id")));
      && (got.Err? ==> r.response == Failure(got.error))
      && (r.response == Status(404) <==> got.Ok? && !Truthy(got.value))
      && (got.Ok? && Truthy(got.value) ==> r.response.Json? && r.response.data.Obj? && Lookup(r.response.data.fields, "build") == got.value)
  {
    match host.builds.get(ToNumber(Param(params, "id")))
    case Err(e) => Answer(st, Failure(e))
    case Ok(build) => Answer(st, if Truthy(build) then Json(Obj([("build", build)])) else Status(404))
  }

  /** `POST /api/0.1/builds`: queue a build of a loaded project. */
  function HandleRunBuild(st: Registry.State, body: Value): (r: Reply)
    ensures r.state == st && r.events == []
    ensures (body.Undefined? || body.Null?) ==> r.response == Failure(NoProperty(body, "project")) && r.queued.None?
    ensures !(body.Undefined? || body.Null?) ==>
      (r.queued.Some? <==> FindProject(st, Get(body, "project")).Some?)
    ensures !(body.Undefined? || body.Null?) ==>
      (r.response == Status(204) <==> r.queued.Some?) && (r.queued.None? <==> r.response == Status(404))
    ensures r.queued.Some? ==> Str(r.queued.value.projectName) == Get(body, "project")
  {
    match ReadProperty(body, "project")
    case Err(e) => Answer(st, Failure(e))
    case Ok(name) =>
      if FindProject(st, name).Some? then
        var request := BuildRequest(name.s, Get(body, "withScmChangesOnly"), Get(body, "queueQueued"),
          Get(body, "buildParams"), Get(body, "env"));
        Reply(Status(204), st, [], Some(request))
      else Answer(st, Status(404))
  }

  /** `PATCH /api/0.1/builds/:id`: cancel the build when the body asks for it. */
  function HandlePatchBuild(host: Host, st: Registry.State, params: Option<Fields>, body: Value): (r: Reply)
    ensures r.state == st && r.events == [] && r.queued.None?
    ensures !(body.Undefined? || body.Null?) && !Truthy(Get(body, "cancel")) ==> r.response == Status(204)
    ensures !(body.Undefined? || body.Null?) && Truthy(Get(body, "cancel")) ==>
      var cancelled := host.builds.cancel(ToNumber(Param(params, "id")));
      r.response == if cancelled.Some? then Failure(cancelled.value) else Status(204)
  {
    match ReadProperty(body, "cancel")
    case Err(e) => Answer(st, Failure(e))
    case Ok(cancel) =>
      if Truthy(cancel) then
        match host.builds.cancel(ToNumber(Param(params, "id")))
        case Some(e) => Answer(st, Failure(e))
        case None => Answer(st, Status(204))
      else Answer(st, Status(204))
  }

  // ---------------------------------------------------------------------
  // Project handlers

  /** `GET /api/0.1/projects`: the loaded configurations of `getAll()`, in order. */
  function HandleListProjects(st: Registry.State): (r: Reply)
    ensures r.state == st && r.events == [] && r.queued.None?
    ensures r.response.Json? && r.response.data.Obj?
    ensures var list := Lookup(r.response.data.fields, "projects");
      && list.Arr? && |list.items| == |Registry.GetAll(st)|
      && forall i :: 0 <= i < |list.items| ==> list.items[i] == Obj(Registry.GetAll(st)[i])
  {
    Answer(st, Json(Obj([("projects", Arr(seq(|st.configs|, i requires 0 <= i < |st.configs| => Obj(st.configs[i]))))])))
  }

  /** `GET /api/0.1/projects/:name`. */
  function HandleGetProject(st: Registry.State, params: Option<Fields>): (r: Reply)
    ensures r.state == st && r.events == [] && r.queued.None?
    ensures r.response == Status(404) <==> FindProject(st, Param(params, "name")).None?
    ensures r.response != Status(404) ==>
      r.response == Json(Obj([("project", Obj(FindProject(st, Param(params, "name")).value))]))
  {
    match FindProject(st, Param(params, "name"))
    case None => Answer(st, Status(404))
    case Some(project) => Answer(st, Json(Obj([("project", Obj(project))])))
  }

  /** `POST /api/0.1/projects`: create a project after the token check. */
  function HandleCreateProject(host: Host, st: Registry.State, body: Value): Reply {
    match ReadProperty(body, "token")
    case Err(e) => Answer(st, Failure(e))
    case Ok(_) =>
      if !TokenMatches(host, body) then Answer(st, Failure(AccessDenied))
      else
        Finish(Registry.Create(host.env, st, NameArg(Get(body, "name")), ConfigArg(Get(body, "config")),
          ConfigFileArg(Get(body, "configFile")), LoadFlag(body)))
  }

  /** `DELETE /api/0.1/projects/:name`: remove a project after the token check. */
  function HandleRemoveProject(host: Host, st: Registry.State, params: Option<Fields>, body: Value): Reply {
    match ReadProperty(body, "token")
    case Err(e) => Answer(st, Failure(e))
    case Ok(_) =>
      if !TokenMatches(host, body) then Answer(st, Failure(AccessDenied))
      else Finish(Registry.Remove(host.env, st, NameArg(Param(params, "name")), host.rmResult))
  }

  /** The configuration step of a patch: `setConfig` when a config or config file is given. */
  function PatchConfig(host: Host, st: Registry.State, name: string, body: Value): Registry.Outcome {
    var config := Get(body, "config");
    var configFile := Get(body, "configFile");
    if Truthy(config) || Truthy(configFile) then
      Registry.SetConfig(host.env, st, name, None, ConfigArg(config), ConfigFileArg(configFile), LoadFlag(body))
    else Registry.Done(st)
  }

  /** The archive step of a patch: a boolean `archived` that differs from the
      flag of the project as it was found at the start of the patch. */
  function PatchArchived(host: Host, st: Registry.State, name: string, project: Fields, body: Value): Registry.Outcome {
    var archived := Get(body, "archived");
    if archived.Bool? && !StrictEquals(archived, Lookup(project, "archived")) then
      if archived.b then Registry.Archive(host.env, st, name) else Registry.Unarchive(host.env, st, name)
    else Registry.Done(st)
  }

  /** The rename step of a patch, run last: a truthy new name that differs from the name. */
  function PatchName(host: Host, st: Registry.State, name: string, newName: Value): (o: Registry.Outcome)
    ensures !Truthy(newName) || StrictEquals(Str(name), newName) ==> o == Registry.Done(st)
    ensures Truthy(newName) && !StrictEquals(Str(name), newName) && FindProject(st, newName).Some? ==>
      o.state == st && o.events == [] && o.error.Some?
  {
    if Truthy(newName) && !StrictEquals(Str(name), newName) then
      if !Registry.IsLoaded(st, name) then Registry.Failed(st, "Project \"" + name + "\" not found")
      else if FindProject(st, newName).Some? then
        Registry.Failed(st, "Project name \"" + ToJsString(newName) + "\" already used")
      else Registry.Rename(host.env, st, name, NameArg(newName))
    else Registry.Done(st)
  }

  /** `PATCH /api/0.1/projects/:name`: after the token check, set the
      configuration, then archive or unarchive, then rename; the first error
      ends the patch. */
  function HandlePatchProject(host: Host, st: Registry.State, params: Option<Fields>, body: Value): Reply {
    match ReadProperty(body, "token")
    case Err(e) => Answer(st, Failure(e))
    case Ok(_) =>
      var name := NameArg(Param(params, "name"));
      if !TokenMatches(host, body) then Answer(st, Failure(AccessDenied))
      else
        match Registry.Get(st, name)
        case None => Answer(st, Failure(Fail("Can`t find project \"" + name + "\" for patch")))
        case Some(project) => Finish(PatchSteps(host, st, name, project, body))
  }

  /** The three steps of a patch of the loaded project `project`. */
  function PatchSteps(host: Host, st: Registry.State, name: string, project: Fields, body: Value): Registry.Outcome {
    var configured := PatchConfig(host, st, name, body);
    var moved := PatchArchived(host, configured.state, name, project, body);
    var renamed := PatchName(host, moved.state, name, Get(body, "name"));
    Registry.AndThen(configured, Registry.AndThen(moved, renamed))
  }

  // ---------------------------------------------------------------------
  // The request listener

  function Dispatch(host: Host, st: Registry.State, e: Endpoint, params: Option<Fields>, query: Fields, body: Value): Reply {
    match e
    case ListBuilds => HandleListBuilds(host, st, query)
    case GetBuild => HandleGetBuild(host, st, params)
    case RunBuild => HandleRunBuild(st, body)
    case PatchBuild => HandlePatchBuild(host, st, params, body)
    case ListProjects => HandleListProjects(st)
    case CreateProject => HandleCreateProject(host, st, body)
    case GetProject => HandleGetProject(st, params)
    case RemoveProject => HandleRemoveProject(host, st, params, body)
    case PatchProject => HandlePatchProject(host, st, params, body)
  }

  /** `JSON.parse(bodyString)` for a non-empty body, `{}` for an empty one. */
  function ParseBody(host: Host, text: string): Result<Value> {
    if text == "" then Ok(Obj([])) else host.parseJson(text)
  }

  /** The listener the server calls for every request. */
  function Handle(host: Host, st: Registry.State, req: Request): (r: Reply)
    ensures !IsApiUrl(req.url) ==> r == Answer(st, PassOn)
    ensures IsApiUrl(req.url) && req.body.Err? ==> r == Answer(st, Failure(req.body.error))
    ensures IsApiUrl(req.url) && req.body.Ok? && ParseBody(host, req.body.value).Err? ==>
      r == Answer(st, Failure(ParseBody(host, req.body.value).error))
    ensures r.state != st || r.events != [] || r.queued.Some? ==>
      IsApiUrl(req.url) && req.body.Ok? && ParseBody(host, req.body.value).Ok?
  {
    if !IsApiUrl(req.url) then Answer(st, PassOn)
    else
      var url := SplitUrl(req.url);
      var query := host.parseQuery(url.query);
      match req.body
      case Err(e) => Answer(st, Failure(e))
      case Ok(text) =>
        match ParseBody(host, text)
        case Err(e) => Answer(st, Failure(e))
        case Ok(body) =>
          match GetRoute(Routes, req.verb, url.path)
          case None => Answer(st, Status(404))
          case Some(found) => Dispatch(host, st, found.handler, found.params, query, body)
  }

  // ---------------------------------------------------------------------
  // Properties

  /** A URL outside `/api/` is passed on untouched. */
  lemma NonApiPassedOn(host: Host, st: Registry.State, req: Request)
    requires !IsApiUrl(req.url)
    ensures Handle(host, st, req) == Answer(st, PassOn)
  {
  }

  /** A `GET` request reads only: it changes no project, emits no event and queues no build. */
  lemma GetRequestReadOnly(host: Host, st: Registry.State, req: Request)
    requires ToLower(req.verb) == "get"
    ensures var r := Handle(host, st, req);
      r.state == st && r.events == [] && r.queued.None?
  {
    if IsApiUrl(req.url) && req.body.Ok? && ParseBody(host, req.body.value).Ok? {
      var path := SplitUrl(req.url).path;
      var found := GetRoute(Routes, req.verb, path);
      if found.Some? {
        var i, caps := GetRouteFirstMatch(Routes, req.verb, path);
        var e := found.value.handler;
        assert e == Table("get")[i].1;
        RegisteredOnlyAtRouteOf("get", i);
        var query := host.parseQuery(SplitUrl(req.url).query);
        ReadOnlyEndpoints(host, st, e, found.value.params, query, ParseBody(host, req.body.value).value);
      }
    }
  }

  /** A request no route matches gets 404 and changes nothing (once its body is read). */
  lemma UnroutedIsNotFound(host: Host, st: Registry.State, req: Request)
    requires IsApiUrl(req.url) && req.body.Ok? && ParseBody(host, req.body.value).Ok?
    requires forall j, c :: 0 <= j < |Routes(ToLower(req.verb))| ==>
      !Matches(Routes(ToLower(req.verb))[j].pattern, c, SplitUrl(req.url).path)
    ensures Handle(host, st, req) == Answer(st, Status(404))
  {
    GetRouteNone(Routes, req.verb, SplitUrl(req.url).path);
  }

  /** The handlers that read or queue builds or read projects leave the registry alone. */
  lemma ReadOnlyEndpoints(host: Host, st: Registry.State, e: Endpoint, params: Option<Fields>, query: Fields, body: Value)
    requires e !in {CreateProject, RemoveProject, PatchProject}
    ensures Dispatch(host, st, e, params, query, body).state == st
    ensures Dispatch(host, st, e, params, query, body).events == []
    ensures Dispatch(host, st, e, params, query, body).queued.Some? ==> e == RunBuild
  {
  }

  /** A mutating project request with a wrong token is refused and changes nothing. */
  lemma WrongTokenRefused(host: Host, st: Registry.State, e: Endpoint, params: Option<Fields>, query: Fields, body: Value)
    requires e in {CreateProject, RemoveProject, PatchProject}
    requires !(body.Undefined? || body.Null?) && !TokenMatches(host, body)
    ensures Dispatch(host, st, e, params, query, body) == Answer(st, Failure(AccessDenied))
  {
  }

  /** A patch of a project that is not loaded is refused and changes nothing. */
  lemma PatchUnknownProject(host: Host, st: Registry.State, params: Option<Fields>, body: Value)
    requires !(body.Undefined? || body.Null?) && TokenMatches(host, body)
    requires !Registry.IsLoaded(st, NameArg(Param(params, "name")))
    ensures var name := NameArg(Param(params, "name"));
      HandlePatchProject(host, st, params, body) == Answer(st, Failure(Fail("Can`t find project \"" + name + "\" for patch")))
  {
  }

  /** A patch that asks for nothing new answers 204 and changes nothing. */
  lemma EmptyPatchChangesNothing(host: Host, st: Registry.State, params: Option<Fields>, body: Value)
    requires body.Obj? && TokenMatches(host, body)
    requires Registry.IsLoaded(st, NameArg(Param(params, "name")))
    requires !Truthy(Get(body, "config")) && !Truthy(Get(body, "configFile"))
    requires !Get(body, "archived").Bool?
    requires !Truthy(Get(body, "name"))
    ensures HandlePatchProject(host, st, params, body) == Answer(st, Status(204))
  {
  }

  /** A patch that only flips `archived` is exactly the registry's archive or unarchive. */
  lemma PatchArchivedIsArchive(host: Host, st: Registry.State, params: Option<Fields>, body: Value)
    requires body.Obj? && TokenMatches(host, body)
    requires !Truthy(Get(body, "config")) && !Truthy(Get(body, "configFile")) && !Truthy(Get(body, "name"))
    requires var name := NameArg(Param(params, "name"));
      && Registry.IsLoaded(st, name)
      && Get(body, "archived").Bool?
      && !StrictEquals(Get(body, "archived"), Lookup(Registry.Get(st, name).value, "archived"))
    ensures var name := NameArg(Param(params, "name"));
      HandlePatchProject(host, st, params, body) ==
        Finish(if Get(body, "archived").b then Registry.Archive(host.env, st, name) else Registry.Unarchive(host.env, st, name))
  {
    var name := NameArg(Param(params, "name"));
    var project := Registry.Get(st, name).value;
    assert HandlePatchProject(host, st, params, body) == Finish(PatchSteps(host, st, name, project, body));
    assert PatchConfig(host, st, name, body) == Registry.Done(st);
    var moved := PatchArchived(host, st, name, project, body);
    assert moved == if Get(body, "archived").b then Registry.Archive(host.env, st, name) else Registry.Unarchive(host.env, st, name);
    assert PatchName(host, moved.state, name, Get(body, "name")) == Registry.Done(moved.state);
  }

  /** Renaming onto a loaded project's name is refused without touching the registry. */
  lemma PatchRenameOntoTaken(host: Host, st: Registry.State, params: Option<Fields>, body: Value)
    requires body.Obj? && TokenMatches(host, body)
    requires !Truthy(Get(body, "config")) && !Truthy(Get(body, "configFile")) && !Get(body, "archived").Bool?
    requires var name := NameArg(Param(params, "name"));
      && Registry.IsLoaded(st, name)
      && Truthy(Get(body, "name")) && !StrictEquals(Str(name), Get(body, "name"))
      && FindProject(st, Get(body, "name")).Some?
    ensures var r := HandlePatchProject(host, st, params, body);
      r.state == st && r.events == [] && r.response.Failure?
  {
  }

  /** A project can be read back through the API exactly when it is loaded. */
  lemma GetProjectIffLoaded(st: Registry.State, name: string)
    ensures HandleGetProject(st, Some([("name", Str(name))])).response.Json? <==> Registry.IsLoaded(st, name)
    ensures Registry.IsLoaded(st, name) ==>
      HandleGetProject(st, Some([("name", Str(name))])).response == Json(Obj([("project", Obj(Registry.Get(st, name).value))]))
  {
  }

  /** The registry invariant a reply keeps: the registry stays well formed and
      the reply's events account exactly for the change in loaded projects. */
  predicate ReplySound(host: Host, st: Registry.State, r: Reply) {
    && Registry.WellFormed(host.env, r.state)
    && Registry.Replay(Registry.Names(st.configs), r.events) == Some(Registry.Names(r.state.configs))
  }

  /** Whatever a request does, the registry invariant holds afterwards. */
  lemma HandleSound(host: Host, st: Registry.State, req: Request)
    requires Registry.WellFormed(host.env, st)
    ensures ReplySound(host, st, Handle(host, st, req))
  {
    if IsApiUrl(req.url) && req.body.Ok? && ParseBody(host, req.body.value).Ok? {
      var url := SplitUrl(req.url);
      match GetRoute(Routes, req.verb, url.path)
      case None =>
      case Some(found) =>
        DispatchSound(host, st, found.handler, found.params, host.parseQuery(url.query), ParseBody(host, req.body.value).value);
    }
  }

  lemma DispatchSound(host: Host, st: Registry.State, e: Endpoint, params: Option<Fields>, query: Fields, body: Value)
    requires Registry.WellFormed(host.env, st)
    ensures ReplySound(host, st, Dispatch(host, st, e, params, query, body))
  {
    match e
    case CreateProject => CreateSound(host, st, body);
    case RemoveProject => RemoveSound(host, st, params, body);
    case PatchProject => PatchProjectSound(host, st, params, body);
    case _ => ReadOnlyEndpoints(host, st, e, params, query, body);
  }

  lemma CreateSound(host: Host, st: Registry.State, body: Value)
    requires Registry.WellFormed(host.env, st)
    ensures ReplySound(host, st, HandleCreateProject(host, st, body))
  {
    Registry.CreateSound(host.env, st, NameArg(Get(body, "name")), ConfigArg(Get(body, "config")),
      ConfigFileArg(Get(body, "configFile")), LoadFlag(body));
  }

  lemma RemoveSound(host: Host, st: Registry.State, params: Option<Fields>, body: Value)
    requires Registry.WellFormed(host.env, st)
    ensures ReplySound(host, st, HandleRemoveProject(host, st, params, body))
  {
    Registry.RemoveSound(host.env, st, NameArg(Param(params, "name")), host.rmResult);
  }

  lemma PatchProjectSound(host: Host, st: Registry.State, params: Option<Fields>, body: Value)
    requires Registry.WellFormed(host.env, st)
    ensures ReplySound(host, st, HandlePatchProject(host, st, params, body))
  {
    var name := NameArg(Param(params, "name"));
    if !(body.Undefined? || body.Null?) && TokenMatches(host, body) && Registry.IsLoaded(st, name) {
      var project := Registry.Get(st, name).value;
      assert HandlePatchProject(host, st, params, body) == Finish(PatchSteps(host, st, name, project, body));
      PatchSound(host, st, name, project, body);
    }
  }

  lemma PatchSound(host: Host, st: Registry.State, name: string, project: Fields, body: Value)
    requires Registry.WellFormed(host.env, st)
    ensures Registry.WellFormed(host.env, PatchSteps(host, st, name, project, body).state)
    ensures Registry.EventsAccountFor(st, PatchSteps(host, st, name, project, body))
  {
    var env := host.env;
    var configured := PatchConfig(host, st, name, body);
    PatchConfigSound(host, st, name, body);
    var moved := PatchArchived(host, configured.state, name, project, body);
    PatchArchivedSound(host, configured.state, name, project, body);
    var renamed := PatchName(host, moved.state, name, Get(body, "name"));
    PatchNameSound(host, moved.state, name, Get(body, "name"));
    Registry.AndThenSound(env, configured.state, moved, renamed);
    Registry.AndThenSound(env, st, configured, Registry.AndThen(moved, renamed));
  }

  lemma PatchConfigSound(host: Host, st: Registry.State, name: string, body: Value)
    requires Registry.WellFormed(host.env, st)
    ensures Registry.WellFormed(host.env, PatchConfig(host, st, name, body).state)
    ensures Registry.EventsAccountFor(st, PatchConfig(host, st, name, body))
  {
    var config := Get(body, "config");
    var configFile := Get(body, "configFile");
    if Truthy(config) || Truthy(configFile) {
      Registry.SetConfigSound(host.env, st, name, None, ConfigArg(config), ConfigFileArg(configFile), LoadFlag(body));
    }
  }

  lemma PatchArchivedSound(host: Host, st: Registry.State, name: string, project: Fields, body: Value)
    requires Registry.WellFormed(host.env, st)
    ensures Registry.WellFormed(host.env, PatchArchived(host, st, name, project, body).state)
    ensures Registry.EventsAccountFor(st, PatchArchived(host, st, name, project, body))
  {
    var archived := Get(body, "archived");
    if archived.Bool? && !StrictEquals(archived, Lookup(project, "archived")) {
      Registry.ArchiveUnarchiveSound(host.env, st, name, if archived.b then "archive" else "unarchive");
    }
  }

  lemma PatchNameSound(host: Host, st: Registry.State, name: string, newName: Value)
    requires Registry.WellFormed(host.env, st)
    ensures Registry.WellFormed(host.env, PatchName(host, st, name, newName).state)
    ensures Registry.EventsAccountFor(st, PatchName(host, st, name, newName))
  {
    var o := PatchName(host, st, name, newName);
    if Truthy(newName) && !StrictEquals(Str(name), newName) && Registry.IsLoaded(st, name)
       && FindProject(st, newName).None? {
      assert o == Registry.Rename(host.env, st, name, NameArg(newName));
      Registry.RenameSound(host.env, st, name, NameArg(newName));
    } else {
      assert o.state == st && o.events == [];
    }
  }
}
