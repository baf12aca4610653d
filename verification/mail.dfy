/**
 The mail notification transport (nci-mail-notification/lib/index.js): the
 subject and body templates a build notification is rendered with, and
 `send`, which renders them and hands the message to the mail transport.

 Template fields are interpolated as `<%= %>` does: `undefined` and `null`
 become the empty string, anything else its string form; nothing is escaped.
 The mail transport is a parameter that answers with an error or nothing.
 */
module Mail {
  import opened Text
  import opened Js
  import opened CatchRev

  /** The fields of a build the templates and `send` read. `changes` is
      `build.scm.changes` when the build has SCM data that lists changes;
      `recipients` is `build.project.notify.to.mail`. */
  datatype Build = Build(
    id: Value,
    number: Value,
    status: Value,
    projectName: Value,
    scmRev: Value,
    changes: Option<seq<Change>>,
    recipients: Value)

  /** The message handed to the transport. */
  datatype Message = Message(subject: string, html: string, to: string)

  /** `<%= v %>`. */
  function Interp(v: Value): string {
    if v.Undefined? || v.Null? then "" else ToJsString(v)
  }

  /** `build.scm && build.scm.changes || []`. */
  function ChangesOf(b: Build): seq<Change> {
    if b.changes.Some? then b.changes.value else []
  }

  // ---------------------------------------------------------------------
  // Templates

  /** `_subjectTemplate`. */
  function Subject(b: Build): (s: string)
    ensures StartsWith(s, Interp(b.projectName) + " build #" + Interp(b.number))
    ensures s[|Interp(b.projectName) + " build #" + Interp(b.number)|..] == " is " + Interp(b.status)
  {
    var head := Interp(b.projectName) + " build #" + Interp(b.number);
    var s := head + " is " + Interp(b.status);
    assert s[..|head|] == head;
    s
  }

  /** One change as the body lists it. */
  function ChangeLine(c: Change): string {
    c.author + ": " + c.comment
  }

  /** The loop of the body template from position `i` on: each change's line,
      followed by `<br>` when a change comes after it. */
  function ChangeLoop(changes: seq<Change>, i: nat): string
    requires i <= |changes|
    decreases |changes| - i
  {
    if i == |changes| then ""
    else ChangeLine(changes[i]) + (if i + 1 < |changes| then "<br>" else "") + ChangeLoop(changes, i + 1)
  }

  function ChangeLines(changes: seq<Change>): seq<string> {
    seq(|changes|, i requires 0 <= i < |changes| => ChangeLine(changes[i]))
  }

  /** The loop lists the changes' lines joined with `<br>`: a separator between
      two changes and none after the last. */
  lemma {:induction false} ChangeLoopIsJoin(changes: seq<Change>, i: nat)
    requires i < |changes|
    ensures ChangeLoop(changes, i) == Join(ChangeLines(changes[i..]), "<br>")
    decreases |changes| - i
  {
    var lines := ChangeLines(changes[i..]);
    if i + 1 == |changes| {
      assert |lines| == 1 && lines[0] == ChangeLine(changes[i]);
    } else {
      ChangeLoopIsJoin(changes, i + 1);
      var rest := ChangeLines(changes[i + 1..]);
      assert lines == [ChangeLine(changes[i])] + rest;
      JoinCons(ChangeLine(changes[i]), rest, "<br>");
    }
  }

  /** The text the body template ends with. */
  function ChangesText(changes: seq<Change>): string {
    if |changes| > 0 then ", scm changes:<br>" + ChangeLoop(changes, 0) else ", no scm changes"
  }

  /** The head of the body: the project, the link to the build, its status and target revision. */
  function BodyHead(b: Build, baseUrl: Value): string {
    Interp(b.projectName) + " build " +
    "<a href=\"" + Interp(baseUrl) + "/builds/" + Interp(b.id) + "\"> #" + Interp(b.number) + " </a> " +
    "status is " + Interp(b.status) +
    ", scm target is " + Interp(b.scmRev)
  }

  /** `_bodyTemplate` with `changes` and `baseUrl`. */
  function Body(b: Build, baseUrl: Value): string {
    BodyHead(b, baseUrl) + ChangesText(ChangesOf(b))
  }

  /** The body is its head followed by the changes joined with `<br>`, or by
      `, no scm changes` when the build has none. */
  lemma BodyShape(b: Build, baseUrl: Value)
    ensures |ChangesOf(b)| > 0 ==>
      Body(b, baseUrl) == BodyHead(b, baseUrl) + ", scm changes:<br>" + Join(ChangeLines(ChangesOf(b)), "<br>")
    ensures |ChangesOf(b)| == 0 ==> Body(b, baseUrl) == BodyHead(b, baseUrl) + ", no scm changes"
  {
    var changes := ChangesOf(b);
    if |changes| > 0 {
      ChangeLoopIsJoin(changes, 0);
      assert changes[0..] == changes;
    }
  }

  /** A build without SCM data is reported as having no changes. */
  lemma NoScmDataNoChanges(b: Build, baseUrl: Value)
    requires b.changes.None?
    ensures Body(b, baseUrl) == BodyHead(b, baseUrl) + ", no scm changes"
  {
    BodyShape(b, baseUrl);
  }

  // ---------------------------------------------------------------------
  // send

  /** What `send` does: return at once, throw, pass an error to its callback
      without mailing, or mail a message and pass on the transport's answer. */
  datatype Sent = Quit | Threw(error: Error) | Failed(error: Error) | Mailed(message: Message, result: Option<Error>)

  /** `recipients.join(',')`, run inside the pipeline: only an array has `join`. */
  function Compose(b: Build, baseUrl: Value, deliver: Message -> Option<Error>): (r: Sent)
    ensures b.recipients.Arr? ==> r.Mailed? && r.message.to == ToJsString(b.recipients)
    ensures b.recipients.Arr? ==> r.message.subject == Subject(b) && r.message.html == Body(b, baseUrl)
    ensures b.recipients.Arr? ==> r.result == deliver(r.message)
    ensures !b.recipients.Arr? ==> r == Failed(Fail("recipients.join is not a function"))
  {
    if b.recipients.Arr? then
      var message := Message(Subject(b), Body(b, baseUrl), ToJsString(b.recipients));
      Mailed(message, deliver(message))
    else Failed(Fail("recipients.join is not a function"))
  }

  /** `send` as written: the guard `!recipients && !recipients.length` reads
      `length` of a missing recipient list, and lets an empty list through. */
  function SendAsWritten(b: Build, baseUrl: Value, deliver: Message -> Option<Error>): (r: Sent)
    ensures r.Threw? <==> b.recipients.Undefined? || b.recipients.Null?
    ensures r == Quit <==> !Truthy(b.recipients) && !(b.recipients.Undefined? || b.recipients.Null?)
    ensures Truthy(b.recipients) ==> r == Compose(b, baseUrl, deliver)
  {
    var recipients := b.recipients;
    if !Truthy(recipients) then
      if recipients.Undefined? || recipients.Null? then Threw(NoProperty(recipients, "length"))
      else Quit
    else Compose(b, baseUrl, deliver)
  }

  /** A project without mail recipients makes `send` throw. */
  lemma SendAsWrittenThrowsWithoutRecipients(b: Build, baseUrl: Value, deliver: Message -> Option<Error>)
    requires b.recipients == Undefined
    ensures SendAsWritten(b, baseUrl, deliver) == Threw(NoProperty(Undefined, "length"))
  {
  }

  /** An empty recipient list is mailed to the empty address list. */
  lemma SendAsWrittenMailsNobody(b: Build, baseUrl: Value, deliver: Message -> Option<Error>)
    requires b.recipients == Arr([])
    ensures SendAsWritten(b, baseUrl, deliver).Mailed?
    ensures SendAsWritten(b, baseUrl, deliver).message.to == ""
  {
  }

  /** `recipients.length` for the values a recipient list can hold. */
  function Length(v: Value): int {
    match v
    case Str(s) => |s|
    case Arr(items) => |items|
    case _ => 0
  }

  /** `send` with the guard meant: quit when the list is missing or empty. */
  function Send(b: Build, baseUrl: Value, deliver: Message -> Option<Error>): (r: Sent)
    ensures !r.Threw?
    ensures r == Quit <==> !Truthy(b.recipients) || Length(b.recipients) == 0
    ensures r.Mailed? ==> b.recipients.Arr? && |b.recipients.items| > 0
    ensures r.Mailed? ==> r.message.subject == Subject(b) && r.message.html == Body(b, baseUrl)
  {
    if !Truthy(b.recipients) || Length(b.recipients) == 0 then Quit
    else Compose(b, baseUrl, deliver)
  }

  /** Where the guard does not matter (a non-empty list), both versions agree. */
  lemma SendAgreesOnRecipients(b: Build, baseUrl: Value, deliver: Message -> Option<Error>)
    requires b.recipients.Arr? && |b.recipients.items| > 0
    ensures Send(b, baseUrl, deliver) == SendAsWritten(b, baseUrl, deliver)
  {
  }

  /** The message goes to each recipient: splitting the address line at the
      commas gives back the addresses when none contains a comma. */
  lemma RecipientsRoundTrip(b: Build, baseUrl: Value, deliver: Message -> Option<Error>, addresses: seq<string>)
    requires |addresses| > 0 && forall i :: 0 <= i < |addresses| ==> ',' !in addresses[i]
    requires b.recipients == Arr(seq(|addresses|, i requires 0 <= i < |addresses| => Str(addresses[i])))
    ensures Send(b, baseUrl, deliver).Mailed?
    ensures Split(Send(b, baseUrl, deliver).message.to, ',') == addresses
  {
    var items := b.recipients.items;
    assert ToJsString(b.recipients) == Join(addresses, ",") by {
      var parts := seq(|items|, i requires 0 <= i < |items| =>
        if items[i].Undefined? || items[i].Null? then "" else ToJsString(items[i]));
      assert parts == addresses;
    }
    JoinSplit(addresses, ',');
  }
}
