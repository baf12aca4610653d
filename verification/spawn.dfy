/**
 The spawn command (nci/lib/command/spawn.js): its settings, the checks made
 before a process is started, and how the events of the child process are
 reduced to the events the command re-emits and the one reply its callback
 receives.

 The child process is a sequence of events: output chunks, a `close` with
 an exit code (absent when a signal ended the process) or an `error`. The
 callback is wrapped with `_.once`, so the first `close` or `error` decides
 the reply; later events still feed the re-emitted output.
 */
module Spawn {
  import opened Text
  import opened Js

  /** The command's settings; a flag holds when the value last given for it was truthy. */
  datatype Settings = Settings(cwd: Value, emitIn: bool, emitOut: bool, emitErr: bool, attachStderr: bool, collectOut: bool)

  /** A command before `setParams` has seen any parameter. */
  const Unset := Settings(Undefined, false, false, false, false, false)

  /** `setParams(params)`: each truthy parameter replaces the setting; a falsy one leaves it. */
  function SetParams(s: Settings, params: Fields): (r: Settings)
    ensures Truthy(Lookup(params, "cwd")) ==> r.cwd == Lookup(params, "cwd")
    ensures !Truthy(Lookup(params, "cwd")) ==> r.cwd == s.cwd
    ensures r.emitIn == (s.emitIn || Truthy(Lookup(params, "emitIn")))
    ensures r.emitOut == (s.emitOut || Truthy(Lookup(params, "emitOut")))
    ensures r.emitErr == (s.emitErr || Truthy(Lookup(params, "emitErr")))
    ensures r.attachStderr == (s.attachStderr || Truthy(Lookup(params, "attachStderr")))
    ensures r.collectOut == (s.collectOut || Truthy(Lookup(params, "collectOut")))
  {
    Settings(
      if Truthy(Lookup(params, "cwd")) then Lookup(params, "cwd") else s.cwd,
      if Truthy(Lookup(params, "emitIn")) then true else s.emitIn,
      if Truthy(Lookup(params, "emitOut")) then true else s.emitOut,
      if Truthy(Lookup(params, "emitErr")) then true else s.emitErr,
      if Truthy(Lookup(params, "attachStderr")) then true else s.attachStderr,
      if Truthy(Lookup(params, "collectOut")) then true else s.collectOut)
  }

  /** Giving the same parameters twice is giving them once. */
  lemma SetParamsIdempotent(s: Settings, params: Fields)
    ensures SetParams(SetParams(s, params), params) == SetParams(s, params)
  {
  }

  /** What a run is asked to do. `cmd` is empty when it is missing; `args` is
      absent when missing (an empty array is present). */
  datatype RunParams = RunParams(cmd: string, args: Option<seq<string>>, optionsCwd: Value, envVars: Value)

  /** The call of `child_process.spawn`. */
  datatype SpawnCall = SpawnCall(cmd: string, args: seq<string>, cwd: Value, env: Value)

  datatype ChildEvent = Stdout(data: string) | Stderr(data: string) | Close(code: Option<int>) | Failed(error: Error)

  predicate IsTerminal(e: ChildEvent) {
    e.Close? || e.Failed?
  }

  /** The events the command itself emits. */
  datatype Emitted = StdinEvent(text: string) | StdoutEvent(data: string) | StderrEvent(data: string)

  /** The arguments the callback receives: an error or null, and the collected stdout. */
  datatype Reply = Reply(error: Option<Error>, stdout: Value)

  datatype RunOutcome = RunOutcome(spawned: Option<SpawnCall>, emitted: seq<Emitted>, reply: Option<Reply>)

  // ---------------------------------------------------------------------
  // Texts

  /** The command line as the error prefix shows it: `[cmd].concat(args).join(' ')`. */
  function CommandLine(cmd: string, args: seq<string>): string {
    Join([cmd] + args, " ")
  }

  function ErrorPrefix(cmd: string, args: seq<string>): string {
    "Error while spawn \"" + CommandLine(cmd, args) + "\": "
  }

  /** The `stdin` event text: `cmd + ' ' + args.join(' ') + '\n'`. */
  function StdinText(cmd: string, args: seq<string>): string {
    cmd + " " + Join(args, " ") + "\n"
  }

  /** `String(code)` for an exit code, `null` when a signal ended the process. */
  function CodeValue(code: Option<int>): Value {
    if code.Some? then Num(code.value) else Null
  }

  // ---------------------------------------------------------------------
  // Reduction of the child's events, stated on the whole sequence

  /** The concatenation of the stdout (`out`) or stderr chunks of `events`. */
  function Collected(events: seq<ChildEvent>, out: bool): string
    decreases |events|
  {
    if |events| == 0 then ""
    else
      var last := events[|events| - 1];
      Collected(events[..|events| - 1], out) +
        (if out && last.Stdout? then last.data else if !out && last.Stderr? then last.data else "")
  }

  /** The position of the first `close` or `error` event. */
  function FirstTerminal(events: seq<ChildEvent>): (k: Option<nat>)
    ensures k.Some? ==> k.value < |events| && IsTerminal(events[k.value])
    ensures k.Some? ==> forall j :: 0 <= j < k.value ==> !IsTerminal(events[j])
    ensures k.None? ==> forall j :: 0 <= j < |events| ==> !IsTerminal(events[j])
    decreases |events|
  {
    if |events| == 0 then None
    else
      match FirstTerminal(events[..|events| - 1])
      case Some(k) => Some(k)
      case None => if IsTerminal(events[|events| - 1]) then Some(|events| - 1) else None
  }

  /** The output events re-emitted for the chunks of `events`. */
  function Forwarded(s: Settings, events: seq<ChildEvent>): seq<Emitted>
    decreases |events|
  {
    if |events| == 0 then []
    else
      var last := events[|events| - 1];
      Forwarded(s, events[..|events| - 1]) +
        (if last.Stdout? && s.emitOut then [StdoutEvent(last.data)]
         else if last.Stderr? && s.emitErr then [StderrEvent(last.data)]
         else [])
  }

  /** The collected stdout or stderr as the callback sees it: a string when
      collecting, `null` otherwise. */
  function Buffer(collecting: bool, text: string): Value {
    if collecting then Str(text) else Null
  }

  /** The error for a non-zero (or absent) exit code. */
  function ExitError(cmd: string, args: seq<string>, code: Option<int>, stderr: Value): Error {
    var e := Fail("Spawned command exits with non-zero code: " + ToJsString(CodeValue(code)));
    SetProp(SetProp(PrefixMessage(e, ErrorPrefix(cmd, args)), "stderr", stderr), "exitCode", CodeValue(code))
  }

  /** The reply decided by the terminal event at position `k`. */
  function ReplyAt(s: Settings, cmd: string, args: seq<string>, events: seq<ChildEvent>, k: nat): Reply
    requires k < |events| && IsTerminal(events[k])
  {
    match events[k]
    case Close(code) =>
      var stdout := Buffer(s.collectOut, Collected(events[..k], true));
      if code == Some(0) then Reply(None, stdout)
      else Reply(Some(ExitError(cmd, args, code, Buffer(s.attachStderr, Collected(events[..k], false)))), stdout)
    case Failed(e) => Reply(Some(PrefixMessage(e, ErrorPrefix(cmd, args))), Undefined)
  }

  /** `run(params, callback)`: what is spawned, what is emitted, what the callback gets. */
  function Run(s: Settings, p: RunParams, events: seq<ChildEvent>): (o: RunOutcome)
    ensures p.cmd == "" ==> o == RunOutcome(None, [], Some(Reply(Some(Fail("`cmd` is not set")), Undefined)))
    ensures p.cmd != "" && p.args.None? ==> o == RunOutcome(None, [], Some(Reply(Some(Fail("`args` is not set")), Undefined)))
    ensures o.spawned.Some? <==> p.cmd != "" && p.args.Some?
    ensures o.spawned.Some? ==>
      o.spawned.value == SpawnCall(p.cmd, p.args.value, if Truthy(p.optionsCwd) then p.optionsCwd else s.cwd, p.envVars)
  {
    if p.cmd == "" then RunOutcome(None, [], Some(Reply(Some(Fail("`cmd` is not set")), Undefined)))
    else if p.args.None? then RunOutcome(None, [], Some(Reply(Some(Fail("`args` is not set")), Undefined)))
    else
      var args := p.args.value;
      var cwd := if Truthy(p.optionsCwd) then p.optionsCwd else s.cwd;
      var stdin := if s.emitIn then [StdinEvent(StdinText(p.cmd, args))] else [];
      var reply := match FirstTerminal(events)
        case None => None
        case Some(k) => Some(ReplyAt(s, p.cmd, args, events, k));
      RunOutcome(Some(SpawnCall(p.cmd, args, cwd, p.envVars)), stdin + Forwarded(s, events), reply)
  }

  // ---------------------------------------------------------------------
  // The event handlers, one event at a time

  /** The state the handlers of one run share. */
  datatype Handlers = Handlers(stdout: Value, stderr: Value, emitted: seq<Emitted>, reply: Option<Reply>)

  /** The listeners of `run` reacting to one child event. */
  function Handle(s: Settings, cmd: string, args: seq<string>, h: Handlers, e: ChildEvent): Handlers {
    match e
    case Stdout(data) =>
      h.(emitted := h.emitted + (if s.emitOut then [StdoutEvent(data)] else []),
         stdout := if s.collectOut then Str(ToJsString(h.stdout) + data) else h.stdout)
    case Stderr(data) =>
      h.(emitted := h.emitted + (if s.emitErr then [StderrEvent(data)] else []),
         stderr := if s.attachStderr then Str(ToJsString(h.stderr) + data) else h.stderr)
    case Close(code) =>
      var reply :=
        if code == Some(0) then Reply(None, h.stdout)
        else Reply(Some(ExitError(cmd, args, code, h.stderr)), h.stdout);
      if h.reply.Some? then h else h.(reply := Some(reply))
    case Failed(err) =>
      if h.reply.Some? then h else h.(reply := Some(Reply(Some(PrefixMessage(err, ErrorPrefix(cmd, args))), Undefined)))
  }

  /** Feeding the child's events to the listeners in order gives the outcome
      `Run` states: the first `close` or `error` decides the reply, the
      buffers hold the chunks seen before it, and every chunk is re-emitted
      when its flag is set. */
  method RunHandlers(s: Settings, p: RunParams, events: seq<ChildEvent>) returns (o: RunOutcome)
    ensures o == Run(s, p, events)
  {
    if p.cmd == "" {
      return RunOutcome(None, [], Some(Reply(Some(Fail("`cmd` is not set")), Undefined)));
    }
    if p.args.None? {
      return RunOutcome(None, [], Some(Reply(Some(Fail("`args` is not set")), Undefined)));
    }
    var args := p.args.value;
    var cwd := if Truthy(p.optionsCwd) then p.optionsCwd else s.cwd;
    var stdin := if s.emitIn then [StdinEvent(StdinText(p.cmd, args))] else [];
    var h := Handlers(Buffer(s.collectOut, ""), Buffer(s.attachStderr, ""), stdin, None);
    var i := 0;
    while i < |events|
      invariant 0 <= i <= |events|
      invariant Reduced(s, p.cmd, args, stdin, events, i, h)
    {
      HandleStep(s, p.cmd, args, stdin, events, i, h);
      h := Handle(s, p.cmd, args, h, events[i]);
      i := i + 1;
    }
    assert events[..i] == events;
    o := RunOutcome(Some(SpawnCall(p.cmd, args, cwd, p.envVars)), h.emitted, h.reply);
  }

  /** The handlers' state after the first `i` events, as `Run` describes it. */
  predicate Reduced(s: Settings, cmd: string, args: seq<string>, stdin: seq<Emitted>,
                    events: seq<ChildEvent>, i: nat, h: Handlers)
    requires i <= |events|
  {
    && h.stdout == Buffer(s.collectOut, Collected(events[..i], true))
    && h.stderr == Buffer(s.attachStderr, Collected(events[..i], false))
    && h.emitted == stdin + Forwarded(s, events[..i])
    && h.reply == match FirstTerminal(events[..i])
      case None => None
      case Some(k) => Some(ReplyAt(s, cmd, args, events, k))
  }

  lemma PrefixStep(events: seq<ChildEvent>, i: nat)
    requires i < |events|
    ensures var prefix := events[..i + 1];
      && prefix[..|prefix| - 1] == events[..i]
      && prefix[|prefix| - 1] == events[i]
      && |prefix| > 0
  {
  }

  /** One more event keeps the handlers' state in step with `Run`. */
  lemma HandleStep(s: Settings, cmd: string, args: seq<string>, stdin: seq<Emitted>,
                   events: seq<ChildEvent>, i: nat, h: Handlers)
    requires i < |events| && Reduced(s, cmd, args, stdin, events, i, h)
    ensures Reduced(s, cmd, args, stdin, events, i + 1, Handle(s, cmd, args, h, events[i]))
  {
    PrefixExtends(s, events, i);
    var e := events[i];
    if IsTerminal(e) {
      TerminalStep(s, cmd, args, stdin, events, i, h);
    } else {
      var before := events[..i];
      ChunkStep(s, cmd, args, h, e, Collected(before, true), Collected(before, false));
      var extra := if e.Stdout? && s.emitOut then [StdoutEvent(e.data)] else if e.Stderr? && s.emitErr then [StderrEvent(e.data)] else [];
      assert h.emitted + extra == stdin + (Forwarded(s, before) + extra);
    }
  }

  /** A chunk of output extends its buffer and the re-emitted events, and leaves the reply. */
  lemma ChunkStep(s: Settings, cmd: string, args: seq<string>, h: Handlers, e: ChildEvent, out: string, err: string)
    requires !IsTerminal(e)
    requires h.stdout == Buffer(s.collectOut, out) && h.stderr == Buffer(s.attachStderr, err)
    ensures var h' := Handle(s, cmd, args, h, e);
      && h'.reply == h.reply
      && h'.emitted == h.emitted +
        (if e.Stdout? && s.emitOut then [StdoutEvent(e.data)] else if e.Stderr? && s.emitErr then [StderrEvent(e.data)] else [])
      && h'.stdout == Buffer(s.collectOut, out + if e.Stdout? then e.data else "")
      && h'.stderr == Buffer(s.attachStderr, err + if e.Stderr? then e.data else "")
  {
    match e
    case Stdout(data) =>
      assert out + "" == out;
      assert err + "" == err;
    case Stderr(data) =>
      assert out + "" == out;
      assert err + "" == err;
  }

  /** A `close` or `error` leaves the buffers and, when it is the first, sets the reply. */
  lemma TerminalStep(s: Settings, cmd: string, args: seq<string>, stdin: seq<Emitted>,
                     events: seq<ChildEvent>, i: nat, h: Handlers)
    requires i < |events| && Reduced(s, cmd, args, stdin, events, i, h) && IsTerminal(events[i])
    requires FirstTerminal(events[..i + 1]) == (if FirstTerminal(events[..i]).Some? then FirstTerminal(events[..i]) else Some(i))
    requires Collected(events[..i + 1], true) == Collected(events[..i], true)
    requires Collected(events[..i + 1], false) == Collected(events[..i], false)
    requires Forwarded(s, events[..i + 1]) == Forwarded(s, events[..i])
    ensures Reduced(s, cmd, args, stdin, events, i + 1, Handle(s, cmd, args, h, events[i]))
  {
    var h' := Handle(s, cmd, args, h, events[i]);
    assert h'.stdout == h.stdout && h'.stderr == h.stderr && h'.emitted == h.emitted;
    if FirstTerminal(events[..i]).None? {
      assert h'.reply == Some(ReplyAt(s, cmd, args, events, i));
    }
  }

  /** What one more event adds to the collected chunks, the re-emitted
      events and the search for the first terminal event. */
  lemma PrefixExtends(s: Settings, events: seq<ChildEvent>, i: nat)
    requires i < |events|
    ensures var e := events[i];
      var before, after := events[..i], events[..i + 1];
      && Collected(after, true) == Collected(before, true) + (if e.Stdout? then e.data else "")
      && Collected(after, false) == Collected(before, false) + (if e.Stderr? then e.data else "")
      && Forwarded(s, after) == Forwarded(s, before) +
        (if e.Stdout? && s.emitOut then [StdoutEvent(e.data)] else if e.Stderr? && s.emitErr then [StderrEvent(e.data)] else [])
      && FirstTerminal(after) == (if FirstTerminal(before).Some? then FirstTerminal(before)
                                  else if IsTerminal(e) then Some(i) else None)
  {
    PrefixStep(events, i);
  }

  // ---------------------------------------------------------------------
  // Properties of the reply

  /** With a zero exit code first, the reply is `(null, stdout)`, stdout being
      the chunks before the close when collecting and `null` otherwise. */
  lemma ZeroExitReply(s: Settings, p: RunParams, events: seq<ChildEvent>, k: nat)
    requires p.cmd != "" && p.args.Some?
    requires FirstTerminal(events) == Some(k) && events[k] == Close(Some(0))
    ensures Run(s, p, events).reply == Some(Reply(None, Buffer(s.collectOut, Collected(events[..k], true))))
  {
  }

  /** With a non-zero (or absent) exit code first, the error names the command
      line and the code, and carries `exitCode` and `stderr`. */
  lemma NonZeroExitReply(s: Settings, p: RunParams, events: seq<ChildEvent>, k: nat)
    requires p.cmd != "" && p.args.Some?
    requires FirstTerminal(events) == Some(k) && events[k].Close? && events[k].code != Some(0)
    ensures var r := Run(s, p, events).reply;
      && r.Some? && r.value.error.Some?
      && var e := r.value.error.value;
        && e.message == ErrorPrefix(p.cmd, p.args.value) + "Spawned command exits with non-zero code: "
                        + ToJsString(CodeValue(events[k].code))
        && Lookup(e.props, "exitCode") == CodeValue(events[k].code)
        && Lookup(e.props, "stderr") == Buffer(s.attachStderr, Collected(events[..k], false))
  {
    var args := p.args.value;
    var code := events[k].code;
    var stderr := Buffer(s.attachStderr, Collected(events[..k], false));
    assert Run(s, p, events).reply == Some(ReplyAt(s, p.cmd, args, events, k));
    assert ReplyAt(s, p.cmd, args, events, k).error == Some(ExitError(p.cmd, args, code, stderr));
    ExitErrorShape(p.cmd, args, code, stderr);
  }

  /** The exit error names the command line and the code, and carries both properties. */
  lemma ExitErrorShape(cmd: string, args: seq<string>, code: Option<int>, stderr: Value)
    ensures var e := ExitError(cmd, args, code, stderr);
      && e.message == ErrorPrefix(cmd, args) + "Spawned command exits with non-zero code: " + ToJsString(CodeValue(code))
      && Lookup(e.props, "exitCode") == CodeValue(code)
      && Lookup(e.props, "stderr") == stderr
  {
    var base := Fail("Spawned command exits with non-zero code: " + ToJsString(CodeValue(code)));
    var prefixed := PrefixMessage(base, ErrorPrefix(cmd, args));
    assert prefixed.message == ErrorPrefix(cmd, args) + base.message;
  }

  /** An `error` event first reports that error, with its message prefixed
      and its other properties kept. */
  lemma ErrorEventReply(s: Settings, p: RunParams, events: seq<ChildEvent>, k: nat)
    requires p.cmd != "" && p.args.Some?
    requires FirstTerminal(events) == Some(k) && events[k].Failed?
    ensures var r := Run(s, p, events).reply;
      && r.Some? && r.value.error.Some?
      && r.value.error.value.props == events[k].error.props
      && r.value.error.value.message == ErrorPrefix(p.cmd, p.args.value) + events[k].error.message
  {
  }

  /** Events after the first `close` or `error` do not change the reply. */
  lemma {:induction false} LaterEventsIgnored(s: Settings, p: RunParams, events: seq<ChildEvent>, more: seq<ChildEvent>)
    requires FirstTerminal(events).Some?
    ensures Run(s, p, events + more).reply == Run(s, p, events).reply
    decreases |more|
  {
    if |more| > 0 {
      var all := events + more;
      var shorter := events + more[..|more| - 1];
      assert all[..|all| - 1] == shorter;
      LaterEventsIgnored(s, p, events, more[..|more| - 1]);
      FirstTerminalExtends(events, more);
      var k := FirstTerminal(events).value;
      assert all[..k] == events[..k];
      assert all[k] == events[k];
    } else {
      assert events + more == events;
    }
  }

  lemma {:induction false} FirstTerminalExtends(events: seq<ChildEvent>, more: seq<ChildEvent>)
    requires FirstTerminal(events).Some?
    ensures FirstTerminal(events + more) == FirstTerminal(events)
    decreases |more|
  {
    if |more| > 0 {
      var all := events + more;
      assert all[..|all| - 1] == events + more[..|more| - 1];
      FirstTerminalExtends(events, more[..|more| - 1]);
    } else {
      assert events + more == events;
    }
  }

  /** Without a `close` or `error` the callback is not called. */
  lemma NoTerminalNoReply(s: Settings, p: RunParams, events: seq<ChildEvent>)
    requires forall j :: 0 <= j < |events| ==> !IsTerminal(events[j])
    ensures Run(s, p, events).reply.None? || (p.cmd == "" || p.args.None?)
  {
  }
}
