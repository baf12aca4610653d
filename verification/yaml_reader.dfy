/**
 The YAML configuration reader (nci-yaml-reader/lib/index.js): the `!env`
 scalar tag, which replaces every `$NAME` in a scalar by the value of the
 environment variable `NAME`, and the loader that reads `<dir>/<name>.yaml`.

 A variable name is a maximal run of word characters (`\w`: letters, digits
 and `_`) after a `$`. The environment, the file system and the YAML parser
 are parameters.
 */
module YamlReader {
  import opened Text
  import opened Js

  /** The process environment. */
  type Environment = string -> Option<string>

  /** Whether a variable reference starts at the head of `s`. */
  predicate VariableAt(s: string) {
    |s| > 1 && s[0] == '$' && IsWordChar(s[1])
  }

  /** `process.env[name]` as `String.prototype.replace` inserts it: a missing variable becomes "undefined". */
  function EnvValue(env: Environment, name: string): string {
    match env(name)
    case Some(v) => v
    case None => "undefined"
  }

  /** `construct(str)`: every `$NAME` replaced by the variable's value, from left to right. */
  function Construct(s: string, env: Environment): string
    decreases |s|
  {
    if |s| == 0 then ""
    else if VariableAt(s) then
      var n := WordLength(s[1..]);
      EnvValue(env, s[1..1 + n]) + Construct(s[1 + n..], env)
    else [s[0]] + Construct(s[1..], env)
  }

  /** `resolve(data)`: the tag applies to a scalar holding at least one `$NAME`. */
  predicate Resolve(data: string)
    decreases |data|
  {
    |data| > 0 && (VariableAt(data) || Resolve(data[1..]))
  }

  /** js-yaml's complaint when the tag's resolver refuses the scalar. */
  const UnresolvedEnv := Fail("cannot resolve a node with !<!env> explicit tag")

  /** An `!env` scalar as the loader produces it. */
  function EnvScalar(data: string, env: Environment): (r: Result<string>)
    ensures r.Err? <==> !Resolve(data)
    ensures r.Err? ==> r.error == UnresolvedEnv
  {
    if Resolve(data) then Ok(Construct(data, env)) else Err(UnresolvedEnv)
  }

  // ---------------------------------------------------------------------
  // The same substitution, through an explicit tokenisation

  /** A scalar as the pattern sees it: literal characters and variable references. */
  datatype Piece = Literal(c: char) | Variable(name: string)

  function Tokenize(s: string): (pieces: seq<Piece>)
    ensures forall i :: 0 <= i < |pieces| && pieces[i].Variable? ==>
      |pieces[i].name| > 0 && forall j :: 0 <= j < |pieces[i].name| ==> IsWordChar(pieces[i].name[j])
    decreases |s|
  {
    if |s| == 0 then []
    else if VariableAt(s) then
      var n := WordLength(s[1..]);
      [Variable(s[1..1 + n])] + Tokenize(s[1 + n..])
    else [Literal(s[0])] + Tokenize(s[1..])
  }

  /** The text of the pieces, with each variable written back as `$NAME`. */
  function Unparse(pieces: seq<Piece>): string {
    if |pieces| == 0 then ""
    else
      (match pieces[0]
       case Literal(c) => [c]
       case Variable(name) => "$" + name) + Unparse(pieces[1..])
  }

  /** The text of the pieces, with each variable replaced by its value. */
  function Expand(pieces: seq<Piece>, env: Environment): string {
    if |pieces| == 0 then ""
    else
      (match pieces[0]
       case Literal(c) => [c]
       case Variable(name) => EnvValue(env, name)) + Expand(pieces[1..], env)
  }

  /** Tokenizing loses nothing: writing the pieces back gives the scalar. */
  lemma {:induction false} TokenizeUnparse(s: string)
    ensures Unparse(Tokenize(s)) == s
    decreases |s|
  {
    if |s| > 0 {
      var pieces := Tokenize(s);
      if VariableAt(s) {
        var n := WordLength(s[1..]);
        TokenizeUnparse(s[1 + n..]);
        assert pieces[1..] == Tokenize(s[1 + n..]);
        assert s == "$" + s[1..1 + n] + s[1 + n..];
      } else {
        TokenizeUnparse(s[1..]);
        assert pieces[1..] == Tokenize(s[1..]);
        assert s == [s[0]] + s[1..];
      }
    }
  }

  /** `construct` substitutes exactly the variables the tokenisation finds. */
  lemma {:induction false} ConstructExpands(s: string, env: Environment)
    ensures Construct(s, env) == Expand(Tokenize(s), env)
    decreases |s|
  {
    if |s| > 0 {
      var pieces := Tokenize(s);
      if VariableAt(s) {
        var n := WordLength(s[1..]);
        ConstructExpands(s[1 + n..], env);
        assert pieces[1..] == Tokenize(s[1 + n..]);
      } else {
        ConstructExpands(s[1..], env);
        assert pieces[1..] == Tokenize(s[1..]);
      }
    }
  }

  predicate HasVariable(pieces: seq<Piece>) {
    exists i :: 0 <= i < |pieces| && pieces[i].Variable?
  }

  /** The tag applies exactly when the tokenisation finds a variable. */
  lemma {:induction false} ResolveFindsVariable(s: string)
    ensures Resolve(s) <==> HasVariable(Tokenize(s))
    decreases |s|
  {
    if |s| > 0 {
      var pieces := Tokenize(s);
      if VariableAt(s) {
        assert pieces[0].Variable?;
      } else {
        ResolveFindsVariable(s[1..]);
        assert pieces == [Literal(s[0])] + Tokenize(s[1..]);
        if HasVariable(Tokenize(s[1..])) {
          var j :| 0 <= j < |Tokenize(s[1..])| && Tokenize(s[1..])[j].Variable?;
          assert pieces[j + 1] == Tokenize(s[1..])[j];
        }
        if HasVariable(pieces) {
          var i :| 0 <= i < |pieces| && pieces[i].Variable?;
          assert Tokenize(s[1..])[i - 1] == pieces[i];
        }
      }
    }
  }

  /** A scalar without variables is left as it is. */
  lemma {:induction false} ConstructWithoutVariables(s: string, env: Environment)
    requires !Resolve(s)
    ensures Construct(s, env) == s
    decreases |s|
  {
    if |s| > 0 {
      ConstructWithoutVariables(s[1..], env);
    }
  }

  /** An environment that maps every name to its own reference changes nothing. */
  lemma ConstructIdentity(s: string)
    ensures Construct(s, (name: string) => Some("$" + name)) == s
  {
    var env := (name: string) => Some("$" + name);
    ConstructExpands(s, env);
    ExpandIdentity(Tokenize(s));
    TokenizeUnparse(s);
  }

  lemma {:induction false} ExpandIdentity(pieces: seq<Piece>)
    ensures Expand(pieces, (name: string) => Some("$" + name)) == Unparse(pieces)
  {
    if |pieces| > 0 {
      ExpandIdentity(pieces[1..]);
    }
  }

  /** A scalar that starts with a variable name followed by text without variables. */
  lemma LeadingVariable(name: string, rest: string, env: Environment)
    requires |name| > 0 && forall i :: 0 <= i < |name| ==> IsWordChar(name[i])
    requires (|rest| > 0 ==> !IsWordChar(rest[0])) && !Resolve(rest)
    ensures EnvScalar("$" + name + rest, env) == Ok(EnvValue(env, name) + rest)
  {
    var s := "$" + name + rest;
    assert s[1..] == name + rest;
    assert s[1] == name[0];
    WordRun(name, rest);
    assert s[1..1 + |name|] == name;
    assert s[1 + |name|..] == rest;
    ScalarAtVariable(s, env, |name|);
  }

  /** A scalar whose only variable reference, `n` characters long, is at its head. */
  lemma ScalarAtVariable(s: string, env: Environment, n: nat)
    requires VariableAt(s) && n == WordLength(s[1..]) && !Resolve(s[1 + n..])
    ensures EnvScalar(s, env) == Ok(EnvValue(env, s[1..1 + n]) + s[1 + n..])
  {
    ConstructWithoutVariables(s[1 + n..], env);
  }

  lemma {:induction false} WordRun(name: string, rest: string)
    requires forall i :: 0 <= i < |name| ==> IsWordChar(name[i])
    requires |rest| > 0 ==> !IsWordChar(rest[0])
    ensures WordLength(name + rest) == |name|
    decreases |name|
  {
    if |name| > 0 {
      assert (name + rest)[1..] == name[1..] + rest;
      WordRun(name[1..], rest);
    } else {
      assert name + rest == rest;
    }
  }

  /** `!env $HOME/tmp` is the home directory followed by "/tmp". */
  lemma HomeTmp(env: Environment)
    requires env("HOME").Some?
    ensures EnvScalar("$HOME/tmp", env) == Ok(env("HOME").value + "/tmp")
  {
    assert "$HOME/tmp" == "$" + "HOME" + "/tmp";
    assert !Resolve("/tmp") by {
      assert "/tmp"[1..] == "tmp" && "tmp"[1..] == "mp" && "mp"[1..] == "p" && "p"[1..] == "";
    }
    LeadingVariable("HOME", "/tmp", env);
  }

  /** A scalar without a `$` cannot carry the tag. */
  lemma BareNameRefused(env: Environment)
    ensures EnvScalar("HOME", env) == Err(UnresolvedEnv)
  {
  }

  // ---------------------------------------------------------------------
  // _load

  /** `path.join(dir, file)` for a file name without separators. */
  function JoinPath(dir: string, file: string): string {
    if dir == "" then file
    else if dir[|dir| - 1] == '/' then dir + file
    else dir + "/" + file
  }

  /** The file a configuration named `name` is read from. */
  function ConfigPath(dir: string, name: string): string {
    JoinPath(dir, name + ".yaml")
  }

  /** `_load(dir, name)`: read the file and parse it; either error is passed on unchanged. */
  function Load(dir: string, name: string, readFile: string -> Result<string>, parse: string -> Result<Value>): (r: Result<Value>)
    ensures readFile(ConfigPath(dir, name)).Err? ==> r == Err(readFile(ConfigPath(dir, name)).error)
    ensures readFile(ConfigPath(dir, name)).Ok? ==> r == parse(readFile(ConfigPath(dir, name)).value)
  {
    var text :- readFile(ConfigPath(dir, name));
    parse(text)
  }

  /** The configuration `test` in `/tmp` is read from `/tmp/test.yaml`. */
  lemma ConfigPathExample()
    ensures ConfigPath("/tmp", "test") == "/tmp/test.yaml"
  {
  }
}
