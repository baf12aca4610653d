/**
 Step normalisation performed while a project's configuration is read
 (`_loadConfig` in nci/lib/project.js): a dictionary of steps becomes a list
 whose entries are named after their keys, and every step object receives a
 default `type` and a default `name`.

 `utils.prune` is not part of this model; it is the parameter `prune`, called
 as the source calls it, with the step's `cmd` and the length 40.
 */
module Normalize {
  import opened Js

  /** The shortening function used for default step names. */
  type Prune = (Value, nat) -> string

  const PruneLength: nat := 40

  /** One entry `key: val` of a dictionary of steps, as a list element:
      objects are named after their key, anything else becomes `{cmd: val}`. */
  function StepFromEntry(key: string, val: Value): (step: Value)
    ensures step.Obj? <==> !val.Arr? && !val.RegExp?
    ensures step.Obj? ==> Lookup(step.fields, "name") == Str(key)
    ensures val.Obj? ==> forall k :: k != "name" ==> Lookup(step.fields, k) == Lookup(val.fields, k)
    ensures !IsObjectLike(val) ==> Lookup(step.fields, "cmd") == val
    ensures IsObjectLike(val) && !val.Obj? ==> step == val
  {
    if val.Obj? then Obj(Put(val.fields, "name", Str(key)))
    else if IsObjectLike(val) then val
    else Obj([("cmd", val), ("name", Str(key))])
  }

  /** `if (!_(steps).isArray() && _(steps).isObject()) steps = _(steps).map(...)`.
      A regular expression has no own enumerable keys, so it maps to an empty list. */
  function StepsToList(steps: Value): (r: Value)
    ensures steps.Arr? || !IsObjectLike(steps) ==> r == steps
    ensures steps.RegExp? ==> r == Arr([])
    ensures steps.Obj? ==> r.Arr? && |r.items| == |steps.fields|
    ensures steps.Obj? ==> forall i :: 0 <= i < |steps.fields| ==>
      r.items[i] == StepFromEntry(steps.fields[i].0, steps.fields[i].1)
  {
    match steps
    case Obj(fields) =>
      Arr(seq(|fields|, i requires 0 <= i < |fields| => StepFromEntry(fields[i].0, fields[i].1)))
    case RegExp(_) => Arr([])
    case _ => steps
  }

  /** The defaults given to one step object: `type` becomes `'shell'` when it
      is falsy, and `name` becomes the pruned `cmd` when it is falsy and `cmd` is truthy. */
  function StepDefaults(f: Fields, prune: Prune): Fields {
    var typed := Typed(f);
    if !Truthy(Lookup(typed, "name")) && Truthy(Lookup(typed, "cmd")) then
      Put(typed, "name", Str(prune(Lookup(typed, "cmd"), PruneLength)))
    else typed
  }

  /** The error the defaults pass raises on a step that is not an object:
      reading `step.type` fails on `undefined` and `null`, and setting it
      fails on any other primitive, whose `type` is always falsy. */
  function PrimitiveStepError(step: Value): Error {
    if step.Undefined? || step.Null? then NoProperty(step, "type") else CannotCreateProperty(step, "type")
  }

  /** Defaults for one element of the step list. Arrays and regular
      expressions are left as they are (they fail validation later);
      primitives and null cannot take a property and raise a TypeError. */
  function ElementDefaults(step: Value, prune: Prune): Result<Value> {
    match step
    case Obj(f) => Ok(Obj(StepDefaults(f, prune)))
    case Arr(_) => Ok(step)
    case RegExp(_) => Ok(step)
    case _ => Err(PrimitiveStepError(step))
  }

  /** `_(steps).each(applyDefaults)` over the elements of a list: the first
      element that cannot take a default stops the pass. */
  function ListDefaults(items: seq<Value>, prune: Prune): (r: Result<seq<Value>>)
    ensures r.Ok? <==> forall i :: 0 <= i < |items| ==> ElementDefaults(items[i], prune).Ok?
    ensures r.Ok? ==> |r.value| == |items|
    ensures r.Ok? ==> forall i :: 0 <= i < |items| ==> r.value[i] == ElementDefaults(items[i], prune).value
    decreases |items|
  {
    if |items| == 0 then Ok([])
    else
      var head := ElementDefaults(items[0], prune);
      var tail := ListDefaults(items[1..], prune);
      if head.Err? then Err(head.error)
      else if tail.Err? then Err(tail.error)
      else
        assert forall i :: 1 <= i < |items| ==> items[1..][i - 1] == items[i];
        Ok([head.value] + tail.value)
  }

  /** `_.each` over whatever `steps` holds after conversion: an array's
      elements, a non-empty string's characters (each a primitive, so the
      first one raises), and nothing at all for other values. */
  function ApplyDefaults(steps: Value, prune: Prune): Result<Value> {
    match steps
    case Arr(items) =>
      (match ListDefaults(items, prune)
       case Ok(xs) => Ok(Arr(xs))
       case Err(e) => Err(e))
    case Str(s) => if s == "" then Ok(steps) else Err(PrimitiveStepError(Str(s[..1])))
    case _ => Ok(steps)
  }

  /** The configuration read from disk with its steps normalised: only
      `steps` changes, and a failure comes from normalising the steps. */
  function NormalizeConfig(raw: Fields, prune: Prune): (r: Result<Fields>)
    ensures Lookup(raw, "steps") == Undefined ==> r == Ok(raw)
    ensures Lookup(raw, "steps") != Undefined ==>
      (r.Ok? <==> ApplyDefaults(StepsToList(Lookup(raw, "steps")), prune).Ok?)
    ensures Lookup(raw, "steps") != Undefined && r.Ok? ==>
      Lookup(r.value, "steps") == ApplyDefaults(StepsToList(Lookup(raw, "steps")), prune).value
    ensures r.Ok? ==> forall k :: k != "steps" ==> Lookup(r.value, k) == Lookup(raw, k)
  {
    var steps := Lookup(raw, "steps");
    if steps == Undefined then Ok(raw)
    else
      match ApplyDefaults(StepsToList(steps), prune)
      case Ok(s) => Ok(Put(raw, "steps", s))
      case Err(e) => Err(e)
  }

  // ---------------------------------------------------------------------
  // Properties of the normalisation

  /** A default never overwrites a truthy `type` or `name`, never touches any
      other property, and leaves a truthy `type`; a step with a truthy `cmd`
      ends with a name, and a step without `name` gets exactly the pruned command. */
  lemma StepDefaultsRules(f: Fields, prune: Prune)
    ensures Truthy(Lookup(f, "type")) ==> Lookup(StepDefaults(f, prune), "type") == Lookup(f, "type")
    ensures !Truthy(Lookup(f, "type")) ==> Lookup(StepDefaults(f, prune), "type") == Str("shell")
    ensures Truthy(Lookup(f, "name")) ==> Lookup(StepDefaults(f, prune), "name") == Lookup(f, "name")
    ensures !Truthy(Lookup(f, "name")) && Truthy(Lookup(f, "cmd")) ==>
      Lookup(StepDefaults(f, prune), "name") == Str(prune(Lookup(f, "cmd"), PruneLength))
    ensures !Truthy(Lookup(f, "name")) && !Truthy(Lookup(f, "cmd")) ==>
      Lookup(StepDefaults(f, prune), "name") == Lookup(f, "name")
    ensures forall k :: k != "type" && k != "name" ==> Lookup(StepDefaults(f, prune), k) == Lookup(f, k)
  {
    var typed := Typed(f);
    var g := StepDefaults(f, prune);
    if !Truthy(Lookup(f, "name")) && Truthy(Lookup(f, "cmd")) {
      var named := Str(prune(Lookup(f, "cmd"), PruneLength));
      assert g == Put(typed, "name", named);
      assert Lookup(g, "name") == named;
      assert Lookup(g, "type") == Lookup(typed, "type");
      assert forall k :: k != "name" ==> Lookup(g, k) == Lookup(typed, k);
    } else {
      assert g == typed;
    }
  }

  /** The first half of the defaults: a falsy `type` becomes `'shell'`. */
  function Typed(f: Fields): (g: Fields)
    ensures Truthy(Lookup(f, "type")) ==> Lookup(g, "type") == Lookup(f, "type")
    ensures !Truthy(Lookup(f, "type")) ==> Lookup(g, "type") == Str("shell")
    ensures forall k :: k != "type" ==> Lookup(g, k) == Lookup(f, k)
  {
    if !Truthy(Lookup(f, "type")) then Put(f, "type", Str("shell")) else f
  }

  /** Normalising is idempotent: a second pass over its own output changes nothing. */
  lemma StepDefaultsIdempotent(f: Fields, prune: Prune)
    ensures StepDefaults(StepDefaults(f, prune), prune) == StepDefaults(f, prune)
  {
    var g := StepDefaults(f, prune);
    assert Truthy(Lookup(g, "type"));
    if !Truthy(Lookup(g, "name")) && Truthy(Lookup(g, "cmd")) {
      // only possible when the pruned name is empty: the second pass writes the same value again
      assert Lookup(g, "cmd") == Lookup(f, "cmd");
      PutSameValue(g, "name", Str(prune(Lookup(g, "cmd"), PruneLength)));
    }
  }

  /** Writing the value a property already has changes nothing. */
  lemma {:induction false} PutSameValue(f: Fields, key: string, v: Value)
    requires Has(f, key) && Lookup(f, key) == v
    ensures Put(f, key, v) == f
    decreases |f|
  {
    if f[0].0 != key {
      PutSameValue(f[1..], key, v);
    }
  }

  /** The normalised configuration's `steps` is the converted and defaulted list. */
  lemma NormalizedSteps(raw: Fields, prune: Prune)
    requires Lookup(raw, "steps") != Undefined
    requires NormalizeConfig(raw, prune).Ok?
    ensures ApplyDefaults(StepsToList(Lookup(raw, "steps")), prune).Ok?
    ensures Lookup(NormalizeConfig(raw, prune).value, "steps")
         == ApplyDefaults(StepsToList(Lookup(raw, "steps")), prune).value
  {
  }

  /** One entry of a dictionary of steps after normalisation. */
  lemma DictionaryEntryNormalized(key: string, val: Value, prune: Prune)
    requires !val.Arr? && !val.RegExp?
    ensures var s := ElementDefaults(StepFromEntry(key, val), prune);
      && s.Ok? && s.value.Obj?
      && (key != "" ==> Lookup(s.value.fields, "name") == Str(key))
      && Truthy(Lookup(s.value.fields, "type"))
      && (!IsObjectLike(val) ==> Lookup(s.value.fields, "cmd") == val)
  {
    var f := StepFromEntry(key, val).fields;
    var g := StepDefaults(f, prune);
    assert ElementDefaults(StepFromEntry(key, val), prune) == Ok(Obj(g));
    StepDefaultsRules(f, prune);
    assert Truthy(Lookup(g, "type"));
    if key != "" {
      assert Lookup(f, "name") == Str(key);
      assert Lookup(g, "name") == Str(key);
    }
    if !IsObjectLike(val) {
      assert Lookup(f, "cmd") == val;
      assert Lookup(g, "cmd") == val;
    }
  }

  /** A dictionary of steps becomes a list with one step per key, in key
      order; every entry that is not an array or a regular expression becomes
      a step object with a type, named after its key (an empty key is a falsy
      name, which the default then replaces), and a non-object value becomes
      that step's `cmd`. */
  lemma DictionaryStepsNamedByKey(raw: Fields, prune: Prune)
    requires Lookup(raw, "steps").Obj?
    requires NormalizeConfig(raw, prune).Ok?
    ensures var steps := Lookup(NormalizeConfig(raw, prune).value, "steps");
      var dict := Lookup(raw, "steps").fields;
      && steps.Arr? && |steps.items| == |dict|
      && forall i :: 0 <= i < |dict| && !dict[i].1.Arr? && !dict[i].1.RegExp? ==>
        && steps.items[i].Obj?
        && (dict[i].0 != "" ==> Lookup(steps.items[i].fields, "name") == Str(dict[i].0))
        && Truthy(Lookup(steps.items[i].fields, "type"))
        && (!IsObjectLike(dict[i].1) ==> Lookup(steps.items[i].fields, "cmd") == dict[i].1)
  {
    var dict := Lookup(raw, "steps").fields;
    var list := StepsToList(Lookup(raw, "steps"));
    NormalizedSteps(raw, prune);
    var defaulted := ListDefaults(list.items, prune);
    assert defaulted.Ok?;
    forall i | 0 <= i < |dict| && !dict[i].1.Arr? && !dict[i].1.RegExp?
      ensures var s := defaulted.value[i];
        && s.Obj?
        && (dict[i].0 != "" ==> Lookup(s.fields, "name") == Str(dict[i].0))
        && Truthy(Lookup(s.fields, "type"))
        && (!IsObjectLike(dict[i].1) ==> Lookup(s.fields, "cmd") == dict[i].1)
    {
      assert list.items[i] == StepFromEntry(dict[i].0, dict[i].1);
      DictionaryEntryNormalized(dict[i].0, dict[i].1, prune);
    }
  }

  /** Every step of a normalised list that is an object has a truthy type. */
  lemma NormalizedStepsTyped(raw: Fields, prune: Prune, i: nat)
    requires Lookup(raw, "steps").Arr?
    requires NormalizeConfig(raw, prune).Ok?
    requires i < |Lookup(raw, "steps").items|
    requires Lookup(raw, "steps").items[i].Obj?
    ensures var steps := Lookup(NormalizeConfig(raw, prune).value, "steps");
      && steps.Arr? && i < |steps.items| && steps.items[i].Obj?
      && Truthy(Lookup(steps.items[i].fields, "type"))
  {
    var items := Lookup(raw, "steps").items;
    var defaulted := ListDefaults(items, prune);
    assert defaulted.Ok?;
    assert defaulted.value[i] == ElementDefaults(items[i], prune).value;
    StepDefaultsRules(items[i].fields, prune);
  }

  /** A step list holding one command string fails with the TypeError of
      setting `type` on that string. */
  lemma StringStepMessage(raw: Fields, prune: Prune, cmd: string)
    requires Lookup(raw, "steps") == Arr([Str(cmd)])
    ensures NormalizeConfig(raw, prune) == Err(CannotCreateProperty(Str(cmd), "type"))
  {
    var items := [Str(cmd)];
    assert ElementDefaults(items[0], prune) == Err(CannotCreateProperty(Str(cmd), "type"));
    assert ListDefaults(items, prune) == Err(CannotCreateProperty(Str(cmd), "type"));
  }

  /** A list holding a primitive step cannot be normalised. */
  lemma PrimitiveStepRejected(raw: Fields, prune: Prune, i: nat)
    requires Lookup(raw, "steps").Arr?
    requires i < |Lookup(raw, "steps").items|
    requires !IsObjectLike(Lookup(raw, "steps").items[i])
    ensures NormalizeConfig(raw, prune).Err?
  {
    var items := Lookup(raw, "steps").items;
    assert ElementDefaults(items[i], prune).Err?;
  }
}
