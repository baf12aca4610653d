/**
 The project configuration schema (`validateConfig` in nci/lib/project.js).
 A configuration is a JavaScript object; properties not named in the schema
 are allowed. The schema library's own wording of a violation is not part of
 this model: `Violation` gives a description of the first violated rule, and
 the registry's prefix is what the model commits to.
 */
module Schema {
  import opened Text
  import opened Js

  /** `^(\w|-)+$`. */
  predicate ValidName(s: string) {
    |s| > 0 && forall i :: 0 <= i < |s| ==> IsWordChar(s[i]) || s[i] == '-'
  }

  /** A property absent (or undefined) or holding a string. */
  predicate OptionalString(f: Fields, key: string) {
    Lookup(f, key) == Undefined || Lookup(f, key).Str?
  }

  predicate RequiredString(f: Fields, key: string) {
    Lookup(f, key).Str?
  }

  predicate AllStrings(items: seq<Value>) {
    forall i :: 0 <= i < |items| ==> items[i].Str?
  }

  /** One entry of `steps`: an object with a string `cmd`, optional string
      `name`, `shell` and `shellCmdArg`, `type` (if present) equal to
      `'shell'`, and `shellExtraArgs` (if present) an array of strings. */
  predicate ValidStep(step: Value) {
    && step.Obj?
    && RequiredString(step.fields, "cmd")
    && OptionalString(step.fields, "name")
    && (Lookup(step.fields, "type") == Undefined || Lookup(step.fields, "type") == Str("shell"))
    && OptionalString(step.fields, "shell")
    && OptionalString(step.fields, "shellCmdArg")
    && (var extra := Lookup(step.fields, "shellExtraArgs");
        extra == Undefined || (extra.Arr? && AllStrings(extra.items)))
  }

  predicate ValidScm(scm: Value) {
    && scm.Obj?
    && RequiredString(scm.fields, "type")
    && RequiredString(scm.fields, "repository")
    && RequiredString(scm.fields, "rev")
  }

  /** The schema of a project configuration, as an independent statement. */
  predicate ValidConfig(config: Fields) {
    && (Lookup(config, "name") == Undefined
        || (Lookup(config, "name").Str? && ValidName(Lookup(config, "name").s)))
    && ValidScm(Lookup(config, "scm"))
    && Lookup(config, "steps").Arr?
    && forall i :: 0 <= i < |Lookup(config, "steps").items| ==> ValidStep(Lookup(config, "steps").items[i])
  }

  /** What is wrong with one step, if anything. */
  function StepViolation(step: Value, index: nat): (v: Option<string>)
    ensures v.None? <==> ValidStep(step)
  {
    var at := "steps[" + NatToString(index) + "]";
    if !step.Obj? then Some(at + " is not an object")
    else
      var f := step.fields;
      if !RequiredString(f, "cmd") then Some(at + ".cmd is required and must be a string")
      else if !OptionalString(f, "name") then Some(at + ".name must be a string")
      else if !(Lookup(f, "type") == Undefined || Lookup(f, "type") == Str("shell")) then
        Some(at + ".type must be one of: shell")
      else if !OptionalString(f, "shell") then Some(at + ".shell must be a string")
      else if !OptionalString(f, "shellCmdArg") then Some(at + ".shellCmdArg must be a string")
      else
        var extra := Lookup(f, "shellExtraArgs");
        if !(extra == Undefined || (extra.Arr? && AllStrings(extra.items))) then
          Some(at + ".shellExtraArgs must be an array of strings")
        else None
  }

  /** The first violating step at or after position `from`. */
  function StepsViolation(steps: seq<Value>, from: nat): (v: Option<string>)
    requires from <= |steps|
    ensures v.None? <==> forall i :: from <= i < |steps| ==> ValidStep(steps[i])
    decreases |steps| - from
  {
    if from == |steps| then None
    else
      var here := StepViolation(steps[from], from);
      if here.Some? then here else StepsViolation(steps, from + 1)
  }

  /** The first rule of the schema that `config` breaks, if any. */
  function Violation(config: Fields): (v: Option<string>)
    ensures v.None? <==> ValidConfig(config)
  {
    var name := Lookup(config, "name");
    var scm := Lookup(config, "scm");
    var steps := Lookup(config, "steps");
    if !(name == Undefined || (name.Str? && ValidName(name.s))) then
      Some("name must be a string matching ^(\\w|-)+$")
    else if !scm.Obj? then Some("scm is required and must be an object")
    else if !RequiredString(scm.fields, "type") then Some("scm.type is required and must be a string")
    else if !RequiredString(scm.fields, "repository") then Some("scm.repository is required and must be a string")
    else if !RequiredString(scm.fields, "rev") then Some("scm.rev is required and must be a string")
    else if !steps.Arr? then Some("steps is required and must be an array")
    else StepsViolation(steps.items, 0)
  }

  /** The text put in front of a validation failure: it names the project. */
  function ValidationPrefix(config: Fields): string {
    "Error during validation of project \"" + ToJsString(Lookup(config, "name")) + "\": "
  }

  /** `validateConfig`: succeed with the configuration itself exactly when it
      meets the schema; otherwise fail with a message that names the project. */
  function ValidateConfig(config: Fields): (r: Result<Fields>)
    ensures r.Ok? <==> ValidConfig(config)
    ensures r.Ok? ==> r.value == config
    ensures r.Err? ==> StartsWith(r.error.message, ValidationPrefix(config))
  {
    match Violation(config)
    case None => Ok(config)
    case Some(what) => Err(PrefixMessage(Fail(what), ValidationPrefix(config)))
  }
}
