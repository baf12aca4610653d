/**
 The catch-rev target selection of the build executor (`_getTarget` in
 nci/lib/executor/base.js), and the SCM revision record it works on.

 A project's `catchRev` rule picks, among the changes an SCM reports, the
 change to build: the rule applies when it has no `onRev` or its `onRev`
 accepts the project's configured revision; it then catches a change by its
 comment or by one of its tags. Regular expressions are not interpreted: a
 `Matcher` says whether the expression with a given source accepts a text.
 */
module CatchRev {
  import opened Text
  import opened Js

  /** A revision or change as an SCM reports it. `tags` is absent for changes without tags. */
  datatype Change = Change(id: string, author: string, comment: string, tags: Option<seq<string>>)

  /** `new RegExp(source).test(text)`. */
  type Matcher = (string, string) -> bool

  /** What `_getTarget` returns: the revision to build and the changes the build covers. */
  datatype Target = Target(rev: Value, changes: seq<Change>)

  // ---------------------------------------------------------------------
  // Rules

  /** Whether the rule applies to the project's configured revision `targetRev`. */
  predicate RuleApplies(catchRev: Value, targetRev: Value, test: Matcher) {
    Truthy(catchRev) &&
    var onRev := Get(catchRev, "onRev");
    if !Truthy(onRev) then true
    else if onRev.RegExp? then test(onRev.source, ToJsString(targetRev))
    else StrictEquals(onRev, targetRev)
  }

  /** `comment.test(change.comment)` or `comment === change.comment`. */
  predicate CommentMatches(comment: Value, c: Change, test: Matcher) {
    if comment.RegExp? then test(comment.source, c.comment) else StrictEquals(comment, Str(c.comment))
  }

  /** The first of `tags` the expression accepts (`_.find`). */
  function FirstAccepted(tags: seq<string>, source: string, test: Matcher): (r: Option<string>)
    ensures r.Some? ==> r.value in tags && test(source, r.value)
    ensures r.None? <==> forall t :: t in tags ==> !test(source, t)
    decreases |tags|
  {
    if |tags| == 0 then None
    else if test(source, tags[0]) then Some(tags[0])
    else
      assert forall t :: t in tags ==> t == tags[0] || t in tags[1..];
      FirstAccepted(tags[1..], source, test)
  }

  /** A tag rule: `_.contains(change.tags, tag)`, or for an expression the
      truthiness of the first tag it accepts (so an empty tag never counts). */
  predicate TagMatches(tag: Value, c: Change, test: Matcher) {
    c.tags.Some? &&
    if tag.RegExp? then
      var found := FirstAccepted(c.tags.value, tag.source, test);
      found.Some? && found.value != ""
    else tag.Str? && tag.s in c.tags.value
  }

  datatype Rule = CommentRule(comment: Value) | TagRule(tag: Value)

  predicate Accepts(rule: Rule, c: Change, test: Matcher) {
    match rule
    case CommentRule(comment) => CommentMatches(comment, c, test)
    case TagRule(tag) => TagMatches(tag, c, test)
  }

  /** `_(changes).findIndex(...)`. */
  function FindIndex(changes: seq<Change>, rule: Rule, test: Matcher): (i: int)
    ensures -1 <= i < |changes|
    ensures i >= 0 ==> Accepts(rule, changes[i], test)
    ensures i >= 0 ==> forall j :: 0 <= j < i ==> !Accepts(rule, changes[j], test)
    ensures i == -1 ==> forall j :: 0 <= j < |changes| ==> !Accepts(rule, changes[j], test)
    decreases |changes|
  {
    if |changes| == 0 then -1
    else if Accepts(rule, changes[0], test) then 0
    else
      var k := FindIndex(changes[1..], rule, test);
      assert forall j :: 1 <= j < |changes| ==> changes[1..][j - 1] == changes[j];
      if k == -1 then -1 else k + 1
  }

  function Reverse<T>(s: seq<T>): (r: seq<T>)
    ensures |r| == |s|
    ensures forall i :: 0 <= i < |s| ==> r[i] == s[|s| - 1 - i]
  {
    seq(|s|, i requires 0 <= i < |s| => s[|s| - 1 - i])
  }

  // ---------------------------------------------------------------------
  // _getTarget as written: reverse, scan, slice, reverse back

  function GetTarget(rev: Value, changes: seq<Change>, catchRev: Value, targetRev: Value, test: Matcher): Target {
    if !RuleApplies(catchRev, targetRev, test) then Target(rev, changes)
    else
      var reversed := Reverse(changes);
      var comment := Get(catchRev, "comment");
      var byComment := if Truthy(comment) then FindIndex(reversed, CommentRule(comment), test) else -1;
      var tag := Get(catchRev, "tag");
      var index := if Truthy(tag) then FindIndex(reversed, TagRule(tag), test) else byComment;
      if index == -1 then Target(rev, changes)
      else Target(Str(reversed[index].id), Reverse(reversed[..index + 1]))
  }

  // ---------------------------------------------------------------------
  // The same selection stated directly on the input order

  /** The rule in force: a truthy tag overrides the comment. */
  function ActiveRule(catchRev: Value): Option<Rule> {
    if Truthy(Get(catchRev, "tag")) then Some(TagRule(Get(catchRev, "tag")))
    else if Truthy(Get(catchRev, "comment")) then Some(CommentRule(Get(catchRev, "comment")))
    else None
  }

  /** The position of the last change the rule accepts. */
  function LastMatch(changes: seq<Change>, rule: Rule, test: Matcher): (k: Option<nat>)
    ensures k.Some? ==> k.value < |changes| && Accepts(rule, changes[k.value], test)
    ensures k.Some? ==> forall j :: k.value < j < |changes| ==> !Accepts(rule, changes[j], test)
    ensures k.None? ==> forall j :: 0 <= j < |changes| ==> !Accepts(rule, changes[j], test)
    decreases |changes|
  {
    if |changes| == 0 then None
    else if Accepts(rule, changes[|changes| - 1], test) then Some(|changes| - 1)
    else LastMatch(changes[..|changes| - 1], rule, test)
  }

  /** The intended selection: when the rule applies and catches a change,
      build that (last) change and cover the changes from it to the end. */
  function Selected(rev: Value, changes: seq<Change>, catchRev: Value, targetRev: Value, test: Matcher): Target {
    if !RuleApplies(catchRev, targetRev, test) then Target(rev, changes)
    else
      match ActiveRule(catchRev)
      case None => Target(rev, changes)
      case Some(rule) =>
        match LastMatch(changes, rule, test)
        case None => Target(rev, changes)
        case Some(k) => Target(Str(changes[k].id), changes[k..])
  }

  /** Scanning the reversed list finds the last match of the input order. */
  lemma FindIndexReversed(changes: seq<Change>, rule: Rule, test: Matcher)
    ensures var i := FindIndex(Reverse(changes), rule, test);
      match LastMatch(changes, rule, test)
      case None => i == -1
      case Some(k) => i == |changes| - 1 - k
  {
    var r := Reverse(changes);
    var i := FindIndex(r, rule, test);
    match LastMatch(changes, rule, test)
    case None =>
    case Some(k) =>
      assert r[|changes| - 1 - k] == changes[k];
  }

  /** Reversing a prefix of the reversed list gives back a suffix of the list. */
  lemma ReversePrefixOfReverse(changes: seq<Change>, index: nat)
    requires index < |changes|
    ensures Reverse(Reverse(changes)[..index + 1]) == changes[|changes| - 1 - index..]
  {
    var r := Reverse(changes);
    var p := Reverse(r[..index + 1]);
    var suffix := changes[|changes| - 1 - index..];
    assert |p| == |suffix|;
    forall j | 0 <= j < |p| ensures p[j] == suffix[j] {
      assert p[j] == r[index - j];
    }
  }

  /** `_getTarget` scans the reversed changes with the rule in force. */
  lemma GetTargetByRule(rev: Value, changes: seq<Change>, catchRev: Value, targetRev: Value, test: Matcher, rule: Rule)
    requires RuleApplies(catchRev, targetRev, test) && ActiveRule(catchRev) == Some(rule)
    ensures var r := Reverse(changes);
      var i := FindIndex(r, rule, test);
      GetTarget(rev, changes, catchRev, targetRev, test) ==
        if i == -1 then Target(rev, changes) else Target(Str(r[i].id), Reverse(r[..i + 1]))
  {
  }

  /** `_getTarget` makes exactly the selection `Selected` states. */
  lemma GetTargetIsSelected(rev: Value, changes: seq<Change>, catchRev: Value, targetRev: Value, test: Matcher)
    ensures GetTarget(rev, changes, catchRev, targetRev, test) == Selected(rev, changes, catchRev, targetRev, test)
  {
    if RuleApplies(catchRev, targetRev, test) {
      var r := Reverse(changes);
      match ActiveRule(catchRev)
      case None =>
      case Some(rule) =>
        var i := FindIndex(r, rule, test);
        GetTargetByRule(rev, changes, catchRev, targetRev, test, rule);
        FindIndexReversed(changes, rule, test);
        match LastMatch(changes, rule, test)
        case None =>
          assert i == -1;
        case Some(k) =>
          assert i == |changes| - 1 - k;
          assert r[i] == changes[k];
          ReversePrefixOfReverse(changes, i);
          assert Selected(rev, changes, catchRev, targetRev, test) == Target(Str(changes[k].id), changes[k..]);
    }
  }

  /** What a build gets from `_getTarget`: the changes it covers are a suffix
      of the reported ones; when a change was caught, that change comes first,
      is the revision built, is accepted by the rule in force, and no later
      change is; otherwise the revision and the changes are passed through. */
  lemma GetTargetSuffix(rev: Value, changes: seq<Change>, catchRev: Value, targetRev: Value, test: Matcher)
    ensures var t := GetTarget(rev, changes, catchRev, targetRev, test);
      && |t.changes| <= |changes|
      && t.changes == changes[|changes| - |t.changes|..]
      && (t == Target(rev, changes) ||
          (&& RuleApplies(catchRev, targetRev, test)
           && ActiveRule(catchRev).Some?
           && |t.changes| > 0
           && t.rev == Str(t.changes[0].id)
           && Accepts(ActiveRule(catchRev).value, t.changes[0], test)
           && forall j :: 0 < j < |t.changes| ==> !Accepts(ActiveRule(catchRev).value, t.changes[j], test)))
  {
    GetTargetIsSelected(rev, changes, catchRev, targetRev, test);
    var t := Selected(rev, changes, catchRev, targetRev, test);
    if t != Target(rev, changes) {
      var rule := ActiveRule(catchRev).value;
      var k := LastMatch(changes, rule, test).value;
      assert t.changes == changes[k..];
      forall j | 0 < j < |t.changes| ensures !Accepts(rule, t.changes[j], test) {
        assert t.changes[j] == changes[k + j];
      }
    }
  }

  /** A rule that does not apply, or catches nothing, leaves the input as it is. */
  lemma NothingCaughtPassesThrough(rev: Value, changes: seq<Change>, catchRev: Value, targetRev: Value, test: Matcher)
    requires !RuleApplies(catchRev, targetRev, test) || ActiveRule(catchRev).None?
             || LastMatch(changes, ActiveRule(catchRev).value, test).None?
    ensures GetTarget(rev, changes, catchRev, targetRev, test) == Target(rev, changes)
  {
    GetTargetIsSelected(rev, changes, catchRev, targetRev, test);
  }
}
