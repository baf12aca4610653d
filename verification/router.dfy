/**
 The request router of the REST API server (nci-rest-api-server/lib/index.js):
 route paths such as `/api/0.1/projects/:name` compiled to anchored regular
 expressions, the lookup of the first route that matches a request, the
 parameters taken from its captures, and the split of a request URL into
 path and query.

 A route path becomes the source of a regular expression: every `:name`
 (a colon and a run of word characters) becomes the group `(.+)`, and the
 name is recorded as a key. The other characters are regular-expression
 source as written; of the syntax `.` is the only one the route paths use, so
 it is the only one given its meaning (any character but a line terminator)
 and every other character stands for itself.
 */
module Router {
  import opened Text
  import opened Js

  /** One element of a compiled route pattern. */
  datatype Elem = Lit(c: char) | AnyChar | Capture

  /** The characters `.` does not match. */
  predicate IsLineTerminator(c: char) {
    c == '\n' || c == '\r' || c == '\U{2028}' || c == '\U{2029}'
  }

  predicate NoLineTerminator(s: string) {
    forall i :: 0 <= i < |s| ==> !IsLineTerminator(s[i])
  }

  // ---------------------------------------------------------------------
  // Compiling a route path

  /** A compiled route: the pattern and the names of its groups, in order. */
  datatype Compiled = Compiled(pattern: seq<Elem>, keys: seq<string>)

  /** `path.replace(/:(\w+)/g, ...)` followed by `new RegExp('^' + ... + '$')`. */
  function Compile(path: string): (r: Compiled)
    ensures forall i :: 0 <= i < |r.keys| ==> |r.keys[i]| > 0
    decreases |path|
  {
    if |path| == 0 then Compiled([], [])
    else if path[0] == ':' && |path| > 1 && IsWordChar(path[1]) then
      var n := WordLength(path[1..]);
      var rest := Compile(path[1 + n..]);
      Compiled([Capture] + rest.pattern, [path[1..1 + n]] + rest.keys)
    else
      var rest := Compile(path[1..]);
      Compiled([if path[0] == '.' then AnyChar else Lit(path[0])] + rest.pattern, rest.keys)
  }

  function CaptureCount(pattern: seq<Elem>): nat {
    if |pattern| == 0 then 0
    else (if pattern[0].Capture? then 1 else 0) + CaptureCount(pattern[1..])
  }

  /** The route path a compiled route was written as: each group back as `:key`. */
  function Decompile(pattern: seq<Elem>, keys: seq<string>): string
    requires |keys| == CaptureCount(pattern)
  {
    if |pattern| == 0 then ""
    else
      match pattern[0]
      case Lit(c) => [c] + Decompile(pattern[1..], keys)
      case AnyChar => "." + Decompile(pattern[1..], keys)
      case Capture => ":" + keys[0] + Decompile(pattern[1..], keys[1..])
  }

  /** Every group has a key, in order: writing the groups back as `:key` gives the path. */
  lemma {:induction false} CompileDecompile(path: string)
    ensures |Compile(path).keys| == CaptureCount(Compile(path).pattern)
    ensures Decompile(Compile(path).pattern, Compile(path).keys) == path
    decreases |path|
  {
    if |path| > 0 {
      var r := Compile(path);
      if path[0] == ':' && |path| > 1 && IsWordChar(path[1]) {
        var n := WordLength(path[1..]);
        var rest := Compile(path[1 + n..]);
        CompileDecompile(path[1 + n..]);
        assert r.pattern[1..] == rest.pattern && r.keys[1..] == rest.keys;
        assert path == ":" + path[1..1 + n] + path[1 + n..];
      } else {
        var rest := Compile(path[1..]);
        CompileDecompile(path[1..]);
        assert r.pattern[1..] == rest.pattern;
        assert path == [path[0]] + path[1..];
      }
    }
  }

  // ---------------------------------------------------------------------
  // Matching: `regExp.exec(path)` with backtracking

  /** The length of the run of characters at the head of `s` that `.` matches. */
  function RunLength(s: string): (n: nat)
    ensures n <= |s|
    ensures NoLineTerminator(s[..n])
    ensures n < |s| ==> IsLineTerminator(s[n])
    decreases |s|
  {
    if |s| == 0 || IsLineTerminator(s[0]) then 0
    else
      var n := 1 + RunLength(s[1..]);
      assert s[..n] == [s[0]] + s[1..][..n - 1];
      n
  }

  /** What a successful match means: the captured texts, put in place of the
      groups, spell the whole of `s`; each is non-empty and free of line terminators. */
  predicate Matches(pattern: seq<Elem>, caps: seq<string>, s: string)
    decreases |pattern|
  {
    if |pattern| == 0 then caps == [] && s == ""
    else
      match pattern[0]
      case Lit(c) => |s| > 0 && s[0] == c && Matches(pattern[1..], caps, s[1..])
      case AnyChar => |s| > 0 && !IsLineTerminator(s[0]) && Matches(pattern[1..], caps, s[1..])
      case Capture =>
        && |caps| > 0 && 0 < |caps[0]| <= |s| && s[..|caps[0]|] == caps[0]
        && NoLineTerminator(caps[0])
        && Matches(pattern[1..], caps[1..], s[|caps[0]|..])
  }

  /** The captures of the first match the backtracking search finds, if any. */
  function MatchFrom(pattern: seq<Elem>, s: string): Option<seq<string>>
    decreases |pattern|, 0, 0
  {
    if |pattern| == 0 then (if s == "" then Some([]) else None)
    else
      match pattern[0]
      case Lit(c) => if |s| > 0 && s[0] == c then MatchFrom(pattern[1..], s[1..]) else None
      case AnyChar => if |s| > 0 && !IsLineTerminator(s[0]) then MatchFrom(pattern[1..], s[1..]) else None
      case Capture => TryCapture(pattern[1..], s, RunLength(s))
  }

  /** A greedy group: try the longest capture first, then shorter ones. */
  function TryCapture(rest: seq<Elem>, s: string, n: nat): (r: Option<seq<string>>)
    requires n <= |s|
    ensures r.Some? ==> |r.value| > 0
    decreases |rest|, 1, n
  {
    if n == 0 then None
    else
      match MatchFrom(rest, s[n..])
      case Some(caps) => Some([s[..n]] + caps)
      case None => TryCapture(rest, s, n - 1)
  }

  /** What the search returns is a match. */
  lemma {:induction false} MatchSound(pattern: seq<Elem>, s: string)
    ensures MatchFrom(pattern, s).Some? ==> Matches(pattern, MatchFrom(pattern, s).value, s)
    decreases |pattern|, 0, 0
  {
    if |pattern| > 0 {
      match pattern[0]
      case Lit(c) => if |s| > 0 { MatchSound(pattern[1..], s[1..]); }
      case AnyChar => if |s| > 0 { MatchSound(pattern[1..], s[1..]); }
      case Capture =>
        assert pattern == [Capture] + pattern[1..];
        TryCaptureSound(pattern[1..], s, RunLength(s));
    }
  }

  lemma {:induction false} TryCaptureSound(rest: seq<Elem>, s: string, n: nat)
    requires n <= RunLength(s)
    ensures TryCapture(rest, s, n).Some? ==> Matches([Capture] + rest, TryCapture(rest, s, n).value, s)
    decreases |rest|, 1, n
  {
    if n > 0 {
      var p := [Capture] + rest;
      assert p[1..] == rest;
      MatchSound(rest, s[n..]);
      match MatchFrom(rest, s[n..])
      case Some(caps) =>
        var all := [s[..n]] + caps;
        assert all[0] == s[..n] && all[1..] == caps;
        assert s[..n] == s[..RunLength(s)][..n];
      case None =>
        TryCaptureSound(rest, s, n - 1);
    }
  }

  /** The search misses no match, and its first group is the longest any match has. */
  lemma {:induction false} MatchComplete(pattern: seq<Elem>, caps: seq<string>, s: string)
    requires Matches(pattern, caps, s)
    ensures MatchFrom(pattern, s).Some?
    decreases |pattern|, 0, 0
  {
    if |pattern| > 0 {
      match pattern[0]
      case Lit(c) => MatchComplete(pattern[1..], caps, s[1..]);
      case AnyChar => MatchComplete(pattern[1..], caps, s[1..]);
      case Capture =>
        assert pattern == [Capture] + pattern[1..];
        CaptureWithinRun(caps[0], s);
        TryCaptureGreedy(pattern[1..], caps, s, RunLength(s));
    }
  }

  /** A capture without line terminators at the head of `s` lies within the run `.` matches. */
  lemma CaptureWithinRun(cap: string, s: string)
    requires |cap| <= |s| && s[..|cap|] == cap && NoLineTerminator(cap)
    ensures |cap| <= RunLength(s)
  {
  }

  /** Trying captures from length `n` down finds one at least as long as any
      match's first capture that is no longer than `n`. */
  lemma {:induction false} TryCaptureGreedy(rest: seq<Elem>, caps: seq<string>, s: string, n: nat)
    requires n <= |s|
    requires Matches([Capture] + rest, caps, s) && |caps[0]| <= n
    ensures TryCapture(rest, s, n).Some?
    ensures |caps[0]| <= |TryCapture(rest, s, n).value[0]|
    decreases |rest|, 1, n
  {
    var p := [Capture] + rest;
    assert p[1..] == rest;
    match MatchFrom(rest, s[n..])
    case Some(found) =>
    case None =>
      if n == |caps[0]| {
        MatchComplete(rest, caps[1..], s[n..]);
      } else {
        TryCaptureGreedy(rest, caps, s, n - 1);
      }
  }

  /** `(.+)` is greedy: when a route's pattern starts with a group, the search
      captures the longest text any match could give that group. */
  lemma LeadingCaptureIsLongest(rest: seq<Elem>, caps: seq<string>, s: string)
    requires Matches([Capture] + rest, caps, s)
    ensures MatchFrom([Capture] + rest, s).Some? && |MatchFrom([Capture] + rest, s).value| > 0
    ensures |caps[0]| <= |MatchFrom([Capture] + rest, s).value[0]|
  {
    var p := [Capture] + rest;
    assert p[1..] == rest;
    CaptureWithinRun(caps[0], s);
    TryCaptureGreedy(rest, caps, s, RunLength(s));
  }

  // ---------------------------------------------------------------------
  // Routes

  datatype Route<H> = Route(pattern: seq<Elem>, keys: seq<string>, handler: H)

  /** `router[verb](path, handler)`: the route a registration adds. */
  function Register<H>(path: string, handler: H): (r: Route<H>)
    ensures r.handler == handler
    ensures |r.keys| == CaptureCount(r.pattern)
    ensures Decompile(r.pattern, r.keys) == path
  {
    var c := Compile(path);
    CompileDecompile(path);
    Route(c.pattern, c.keys, handler)
  }

  /** The value of a group: `parts[index + 1]`. */
  function CaptureValue(caps: seq<string>, i: nat): Value {
    if i < |caps| then Str(caps[i]) else Undefined
  }

  /** `route.params[key] = parts[index + 1]` for each key in order. */
  function Params(keys: seq<string>, caps: seq<string>): Fields
    decreases |keys|
  {
    if |keys| == 0 then []
    else Put(Params(keys[..|keys| - 1], caps), keys[|keys| - 1], CaptureValue(caps, |keys| - 1))
  }

  /** With distinct keys, each key's parameter is its own group's text. */
  lemma {:induction false} ParamsByKey(keys: seq<string>, caps: seq<string>, i: nat)
    requires i < |keys| && forall a, b :: 0 <= a < b < |keys| ==> keys[a] != keys[b]
    ensures Lookup(Params(keys, caps), keys[i]) == CaptureValue(caps, i)
    decreases |keys|
  {
    var last := |keys| - 1;
    if i < last {
      var front := keys[..last];
      assert front[i] == keys[i];
      ParamsByKey(front, caps, i);
    }
  }

  /** A parameter exists exactly for each key. */
  lemma {:induction false} ParamsHasKeys(keys: seq<string>, caps: seq<string>, k: string)
    ensures Has(Params(keys, caps), k) <==> k in keys
    decreases |keys|
  {
    if |keys| > 0 {
      var last := |keys| - 1;
      ParamsHasKeys(keys[..last], caps, k);
      assert keys == keys[..last] + [keys[last]];
    }
  }

  /** The first route whose pattern matches the path (`_.find`), with its captures. */
  function FindRoute<H>(routes: seq<Route<H>>, path: string): (r: Option<(nat, seq<string>)>)
    ensures r.Some? ==> r.value.0 < |routes| && MatchFrom(routes[r.value.0].pattern, path) == Some(r.value.1)
    ensures r.Some? ==> forall j :: 0 <= j < r.value.0 ==> MatchFrom(routes[j].pattern, path).None?
    ensures r.None? ==> forall j :: 0 <= j < |routes| ==> MatchFrom(routes[j].pattern, path).None?
    decreases |routes|
  {
    if |routes| == 0 then None
    else
      match MatchFrom(routes[0].pattern, path)
      case Some(caps) => Some((0, caps))
      case None =>
        match FindRoute(routes[1..], path)
        case None => None
        case Some(found) => Some((found.0 + 1, found.1))
  }

  /** The route a request reaches: its handler, and the parameters when the route has keys. */
  datatype Found<H> = Found(handler: H, params: Option<Fields>)

  /** `router.getRoute(req)`: the routes of the lower-cased verb, first match wins. */
  function GetRoute<H>(table: string -> seq<Route<H>>, verb: string, path: string): Option<Found<H>> {
    var routes := table(ToLower(verb));
    match FindRoute(routes, path)
    case None => None
    case Some((i, caps)) =>
      var route := routes[i];
      Some(Found(route.handler, if |route.keys| > 0 then Some(Params(route.keys, caps)) else None))
  }

  /** The route found is the first whose pattern matches; its handler is that
      route's; and a key's parameter is the text its group captured. */
  lemma GetRouteFirstMatch<H>(table: string -> seq<Route<H>>, verb: string, path: string)
    returns (i: nat, caps: seq<string>)
    requires GetRoute(table, verb, path).Some?
    ensures i < |table(ToLower(verb))|
    ensures var route := table(ToLower(verb))[i];
      && Matches(route.pattern, caps, path)
      && GetRoute(table, verb, path).value.handler == route.handler
      && (GetRoute(table, verb, path).value.params.Some? <==> |route.keys| > 0)
      && (|route.keys| > 0 ==> GetRoute(table, verb, path).value.params == Some(Params(route.keys, caps)))
    ensures forall j :: 0 <= j < i ==> forall c :: !Matches(table(ToLower(verb))[j].pattern, c, path)
  {
    var routes := table(ToLower(verb));
    var found := FindRoute(routes, path).value;
    i, caps := found.0, found.1;
    MatchSound(routes[i].pattern, path);
    forall j, c | 0 <= j < i ensures !Matches(routes[j].pattern, c, path) {
      if Matches(routes[j].pattern, c, path) {
        MatchComplete(routes[j].pattern, c, path);
      }
    }
  }

  /** No route is found exactly when no route of the verb matches. */
  lemma GetRouteNone<H>(table: string -> seq<Route<H>>, verb: string, path: string)
    ensures GetRoute(table, verb, path).None? ==>
      forall j, c :: 0 <= j < |table(ToLower(verb))| ==> !Matches(table(ToLower(verb))[j].pattern, c, path)
    ensures GetRoute(table, verb, path).Some? ==>
      exists j, c :: 0 <= j < |table(ToLower(verb))| && Matches(table(ToLower(verb))[j].pattern, c, path)
  {
    var routes := table(ToLower(verb));
    if GetRoute(table, verb, path).None? {
      assert FindRoute(routes, path).None?;
      forall j, c | 0 <= j < |routes| ensures !Matches(routes[j].pattern, c, path) {
        if Matches(routes[j].pattern, c, path) {
          MatchComplete(routes[j].pattern, c, path);
        }
      }
    } else {
      var i, caps := GetRouteFirstMatch(table, verb, path);
      assert Matches(routes[i].pattern, caps, path);
      assert 0 <= i < |table(ToLower(verb))| && Matches(table(ToLower(verb))[i].pattern, caps, path);
    }
  }

  // ---------------------------------------------------------------------
  // The request URL

  /** `req.url.split('?')`: the path and, when there is one, the query text
      (the text between the first and the second `?`). */
  datatype Url = Url(path: string, query: Option<string>)

  function SplitUrl(url: string): (u: Url)
    ensures '?' !in u.path
    ensures u.query.Some? ==> '?' !in u.query.value
  {
    var parts := Split(url, '?');
    Url(parts[0], if |parts| > 1 then Some(parts[1]) else None)
  }

  /** The path is the URL up to its first `?`; the query follows that `?`. */
  lemma SplitUrlPrefix(url: string)
    ensures SplitUrl(url).path == url[..IndexOfChar(url, '?')]
    ensures SplitUrl(url).query.Some? <==> IndexOfChar(url, '?') < |url|
    ensures IndexOfChar(url, '?') < |url| ==>
      StartsWith(url[IndexOfChar(url, '?') + 1..], SplitUrl(url).query.value)
  {
    var k := IndexOfChar(url, '?');
    var parts := Split(url, '?');
    if k < |url| {
      var tail := url[k + 1..];
      var rest := Split(tail, '?');
      assert parts == [url[..k]] + rest;
      assert |parts| > 1 && parts[0] == url[..k] && parts[1] == rest[0];
      var j := IndexOfChar(tail, '?');
      if j == |tail| {
        assert rest == [tail];
      } else {
        assert rest == [tail[..j]] + Split(tail[j + 1..], '?');
      }
      assert rest[0] == tail[..j];
      assert SplitUrl(url) == Url(url[..k], Some(tail[..j]));
    } else {
      assert parts == [url];
      assert url[..k] == url;
      assert SplitUrl(url) == Url(url, None);
    }
  }

  /** The server hands a request to the API only when its URL starts with `/api/`. */
  predicate IsApiUrl(url: string) {
    StartsWith(url, "/api/")
  }
}
