/** The push parser of the daemon's line protocol (protocol_parser.h).

    Grammar of one request line:  command (blank+ argument)? blank* '\n'
    where a blank is a space or a tab (`std::isblank` in the "C" locale).

    The parser's callbacks are modelled as the list of calls it makes, in
    order: a `Request(command, argument)` for each call of the request handler
    and an `ErrorRaised(kind)` for each call of the error handler.  The error
    handler is a function from the error kind to "stop parsing now?". */
module ProtocolParser {
  import opened Wrappers

  datatype ParseError = MissingCommand | ExtraArgument

  datatype State = Initial | Command | CommandEnd | Argument | ArgumentEnd | Error

  /** `std::isblank` in the "C" locale: space and horizontal tab only. */
  predicate IsBlank(c: char) {
    c == ' ' || c == '\t'
  }

  /** One call of a handler slot. */
  datatype Event = Request(command: string, argument: string) | ErrorRaised(error: ParseError)

  /** The fields `state_`, `cur_command_` and `cur_argument_`. */
  datatype Fields = Fields(state: State, command: string, argument: string)

  /** The two handler slots; an empty `std::function` is absent. */
  datatype Handlers = Handlers(hasRequestHandler: bool, errorHandler: Option<ParseError -> bool>)

  /** What `reset()` leaves behind. */
  const ResetFields := Fields(Initial, "", "")

  /** The effect of one byte: go on with new fields, or stop in front of it. */
  datatype StepResult = Next(fields: Fields, events: seq<Event>) | Stop(events: seq<Event>)

  /** The effect of one call of `parse`: the new fields, the handler calls made
      and how far `begin` was advanced. */
  datatype Outcome = Outcome(fields: Fields, events: seq<Event>, consumed: nat)

  /** Raising error `e` in fields `f`: with a handler that answers true the
      parser stops without consuming the byte, otherwise it enters `error`. */
  function Raise(f: Fields, e: ParseError, h: Handlers): StepResult {
    match h.errorHandler
    case None => Next(f.(state := Error), [])
    case Some(stop) =>
      if stop(e) then Stop([ErrorRaised(e)]) else Next(f.(state := Error), [ErrorRaised(e)])
  }

  /** A completed line: `process_request()` then `reset()`. */
  function Complete(f: Fields, h: Handlers): StepResult {
    Next(ResetFields, Emitted(f, h))
  }

  /** The body of the `switch` for one byte.  As in the code, a
      `missing_command` that does not stop the parser leaves it in `error`,
      although the '\n' that raised it has already ended the line (see
      `StepCorrected`). */
  function Step(f: Fields, c: char, h: Handlers): StepResult {
    match f.state
    case Initial =>
      if c == '\n' then Raise(f, MissingCommand, h)
      else if IsBlank(c) then Next(f, [])
      else Next(f.(state := Command, command := f.command + [c]), [])
    case Command =>
      if c == '\n' then Complete(f, h)
      else if IsBlank(c) then Next(f.(state := CommandEnd), [])
      else Next(f.(command := f.command + [c]), [])
    case CommandEnd =>
      if c == '\n' then Complete(f, h)
      else if IsBlank(c) then Next(f, [])
      else Next(f.(state := Argument, argument := f.argument + [c]), [])
    case Argument =>
      if c == '\n' then Complete(f, h)
      else if IsBlank(c) then Next(f.(state := ArgumentEnd), [])
      else Next(f.(argument := f.argument + [c]), [])
    case ArgumentEnd =>
      if c == '\n' then Complete(f, h)
      else if IsBlank(c) then Next(f, [])
      else Raise(f, ExtraArgument, h)
    case Error =>
      if c == '\n' then Next(ResetFields, []) else Next(f, [])
  }

  /** The `for` loop of `parse` over `input`, starting from fields `f`. */
  function Run(f: Fields, input: seq<char>, h: Handlers): (o: Outcome)
    ensures o.consumed <= |input|
    decreases |input|
  {
    if input == [] then Outcome(f, [], 0)
    else
      match Step(f, input[0], h)
      case Stop(ev) => Outcome(f, ev, 0)
      case Next(f', ev) =>
        var o := Run(f', input[1..], h);
        Outcome(o.fields, ev + o.events, o.consumed + 1)
  }

  /** `o` preceded by `events` and `n` consumed bytes. */
  function After(events: seq<Event>, n: nat, o: Outcome): Outcome {
    Outcome(o.fields, events + o.events, n + o.consumed)
  }

  /** One more byte of a run whose earlier part produced `events` and
      consumed `k` bytes. */
  lemma {:induction false} RunAfterStep(o: Outcome, events: seq<Event>, k: nat, f: Fields, s: seq<char>, h: Handlers)
    requires s != [] && o == After(events, k, Run(f, s, h))
    ensures match Step(f, s[0], h)
      case Stop(ev) => o == Outcome(f, events + ev, k)
      case Next(f', ev) => o == After(events + ev, k + 1, Run(f', s[1..], h))
  {
    match Step(f, s[0], h)
    case Stop(ev) =>
    case Next(f', ev) =>
      var r := Run(f', s[1..], h);
      Associative(events, ev, r.events);
  }

  /** A handler configuration under which the parser never stops early. */
  predicate Recovers(h: Handlers) {
    match h.errorHandler
    case None => true
    case Some(stop) => !stop(MissingCommand) && !stop(ExtraArgument)
  }

  /** A token as the parser builds it: no blank and no line terminator. */
  predicate IsToken(s: string) {
    forall i :: 0 <= i < |s| ==> !IsBlank(s[i]) && s[i] != '\n'
  }

  /** The relation between the state and the two accumulators. */
  predicate WellFormed(f: Fields) {
    && IsToken(f.command) && IsToken(f.argument)
    && match f.state
       case Initial => f.command == "" && f.argument == ""
       case Command | CommandEnd => f.command != "" && f.argument == ""
       case Argument | ArgumentEnd => f.command != "" && f.argument != ""
       case Error => true
  }

  /** What every request handed to the request handler looks like. */
  predicate WellFormedRequest(e: Event) {
    e.Request? ==> e.command != "" && IsToken(e.command) && IsToken(e.argument)
  }

  // ---------------------------------------------------------------------------
  // Properties of one byte

  /** A '\n' in `initial` (an empty or all-blank line) raises missing_command,
      and a non-blank byte after the argument and its trailing blanks raises
      extra_argument; nothing else raises an error. */
  lemma {:induction false} StepRaises(f: Fields, c: char, h: Handlers)
    requires h.errorHandler.Some?
    ensures ErrorRaised(MissingCommand) in Step(f, c, h).events <==> f.state == Initial && c == '\n'
    ensures ErrorRaised(ExtraArgument) in Step(f, c, h).events <==> f.state == ArgumentEnd && c != '\n' && !IsBlank(c)
  {
  }

  /** The parser stops only on a byte that raises an error the error handler
      answers with true, and then it leaves its fields as they were. */
  lemma {:induction false} StepStops(f: Fields, c: char, h: Handlers)
    ensures Step(f, c, h).Stop? <==>
      h.errorHandler.Some? &&
      ((f.state == Initial && c == '\n' && h.errorHandler.value(MissingCommand)) ||
       (f.state == ArgumentEnd && c != '\n' && !IsBlank(c) && h.errorHandler.value(ExtraArgument)))
    ensures Step(f, c, h).Stop? ==> |Step(f, c, h).events| == 1 && Step(f, c, h).events[0].ErrorRaised?
  {
  }

  /** When an error is raised and the handler answers false, or there is no
      handler, a mid-line error (extra_argument) enters the `error` state and
      the accumulators are left alone. */
  lemma {:induction false} ExtraArgumentEntersError(f: Fields, c: char, h: Handlers)
    requires f.state == ArgumentEnd && c != '\n' && !IsBlank(c)
    requires h.errorHandler.None? || !h.errorHandler.value(ExtraArgument)
    ensures Step(f, c, h) == Next(f.(state := Error), if h.errorHandler.Some? then [ErrorRaised(ExtraArgument)] else [])
  {
  }

  lemma {:induction false} StepPreservesWellFormed(f: Fields, c: char, h: Handlers)
    requires WellFormed(f)
    ensures Step(f, c, h).Next? ==> WellFormed(Step(f, c, h).fields)
    ensures forall e :: e in Step(f, c, h).events ==> WellFormedRequest(e)
  {
    if c != '\n' && !IsBlank(c) {
      TokenGrows(f.command, c);
      TokenGrows(f.argument, c);
    }
  }

  /** A byte that is neither blank nor '\n' extends a token to a longer one. */
  lemma {:induction false} TokenGrows(s: string, c: char)
    requires IsToken(s) && !IsBlank(c) && c != '\n'
    ensures IsToken(s + [c]) && s + [c] != ""
  {
    var t := s + [c];
    assert forall i :: 0 <= i < |t| ==> t[i] == if i < |s| then s[i] else c;
  }

  // ---------------------------------------------------------------------------
  // Properties of whole calls of `parse`

  /** Every request handed to the request handler has a nonempty command, and
      neither token holds a space, a tab or a '\n'; the fields stay well formed. */
  lemma {:induction false} RunRequestsAreTokens(f: Fields, input: seq<char>, h: Handlers)
    requires WellFormed(f)
    ensures WellFormed(Run(f, input, h).fields)
    ensures forall e :: e in Run(f, input, h).events ==> WellFormedRequest(e)
    decreases |input|
  {
    if input != [] {
      StepPreservesWellFormed(f, input[0], h);
      match Step(f, input[0], h)
      case Stop(ev) =>
      case Next(f', ev) =>
        RunRequestsAreTokens(f', input[1..], h);
    }
  }

  /** If `parse` returns early, `begin` stands on the byte that raised the
      error, the fields are those reached just before that byte, and the last
      handler call is the error the handler answered with true. */
  lemma {:induction false} RunStopsAtOffendingByte(f: Fields, input: seq<char>, h: Handlers)
    requires Run(f, input, h).consumed < |input|
    ensures var o := Run(f, input, h);
      && o.events != []
      && Run(f, input[..o.consumed], h) == Outcome(o.fields, o.events[..|o.events| - 1], o.consumed)
      && Step(o.fields, input[o.consumed], h) == Stop([o.events[|o.events| - 1]])
    decreases |input|
  {
    var o := Run(f, input, h);
    StepStops(f, input[0], h);
    match Step(f, input[0], h)
    case Stop(ev) =>
      assert input[..0] == [];
    case Next(f', ev) =>
      var rest := Run(f', input[1..], h);
      RunStopsAtOffendingByte(f', input[1..], h);
      assert input[..o.consumed][1..] == input[1..][..rest.consumed];
      assert o.events[..|o.events| - 1] == ev + rest.events[..|rest.events| - 1];
  }

  /** With an error handler that always answers false (or none), `parse`
      consumes its whole input. */
  lemma {:induction false} RunConsumesAll(f: Fields, input: seq<char>, h: Handlers)
    requires Recovers(h)
    ensures Run(f, input, h).consumed == |input|
    decreases |input|
  {
    if input != [] {
      StepStops(f, input[0], h);
      RunConsumesAll(Step(f, input[0], h).fields, input[1..], h);
    }
  }

  /** Chunk-boundary independence: since `parse` is a per-byte loop over
      persistent fields, parsing `s` then `t` is parsing `s + t`.  If the parse
      of `s` stopped early, `s + t` stops at the same byte. */
  lemma {:induction false} RunAppend(f: Fields, s: seq<char>, t: seq<char>, h: Handlers)
    ensures var o1 := Run(f, s, h);
      Run(f, s + t, h) ==
        if o1.consumed < |s| then o1 else After(o1.events, |s|, Run(o1.fields, t, h))
    decreases |s|
  {
    if s == [] {
      assert s + t == t;
    } else {
      assert (s + t)[0] == s[0];
      assert (s + t)[1..] == s[1..] + t;
      match Step(f, s[0], h)
      case Stop(ev) =>
      case Next(f', ev) =>
        var o := Run(f', s[1..], h);
        RunAppend(f', s[1..], t, h);
        if o.consumed == |s| - 1 {
          var r := Run(o.fields, t, h);
          Associative(ev, o.events, r.events);
        }
    }
  }

  /** The bytes of `chunks`, one after the other. */
  function Concat(chunks: seq<seq<char>>): seq<char> {
    if chunks == [] then [] else chunks[0] + Concat(chunks[1..])
  }

  /** Repeated calls of `parse`, one per chunk, as long as each consumes its
      chunk; the events of all calls in order. */
  function RunChunks(f: Fields, chunks: seq<seq<char>>, h: Handlers): Outcome
    decreases |chunks|
  {
    if chunks == [] then Outcome(f, [], 0)
    else
      var o := Run(f, chunks[0], h);
      if o.consumed < |chunks[0]| then o
      else After(o.events, |chunks[0]|, RunChunks(o.fields, chunks[1..], h))
  }

  /** Feeding a stream in chunks of any sizes (down to one byte) gives the
      same handler calls, fields and consumed count as feeding it at once. */
  lemma {:induction false} ChunkBoundaryIndependence(f: Fields, chunks: seq<seq<char>>, h: Handlers)
    ensures RunChunks(f, chunks, h) == Run(f, Concat(chunks), h)
    decreases |chunks|
  {
    if chunks != [] {
      RunAppend(f, chunks[0], Concat(chunks[1..]), h);
      var o := Run(f, chunks[0], h);
      if o.consumed == |chunks[0]| {
        ChunkBoundaryIndependence(o.fields, chunks[1..], h);
      }
    }
  }

  /** Error recovery: in the `error` state every byte up to and including the
      next '\n' is dropped without a handler call, and the parser is then back
      in its reset state. */
  lemma {:induction false} ErrorSkipsToLineEnd(f: Fields, junk: seq<char>, rest: seq<char>, h: Handlers)
    requires f.state == Error
    requires forall i :: 0 <= i < |junk| ==> junk[i] != '\n'
    ensures Run(f, junk + ['\n'] + rest, h) == After([], |junk| + 1, Run(ResetFields, rest, h))
    decreases |junk|
  {
    if junk == [] {
      assert junk + ['\n'] + rest == ['\n'] + rest;
      assert (['\n'] + rest)[1..] == rest;
    } else {
      assert (junk + ['\n'] + rest)[1..] == junk[1..] + ['\n'] + rest;
      ErrorSkipsToLineEnd(f, junk[1..], rest, h);
    }
  }

  // ---------------------------------------------------------------------------
  // Well-formed lines

  predicate AllBlank(s: seq<char>) {
    forall i :: 0 <= i < |s| ==> IsBlank(s[i])
  }

  /** The state a run of blanks leads to. */
  function AfterBlank(st: State): State {
    match st
    case Command => CommandEnd
    case Argument => ArgumentEnd
    case _ => st
  }

  /** Blanks only move `command` to `command_end` and `argument` to
      `argument_end`; they are never stored and raise nothing. */
  lemma {:induction false} RunBlanks(f: Fields, b: seq<char>, rest: seq<char>, h: Handlers)
    requires f.state != Error && AllBlank(b)
    ensures Run(f, b + rest, h) ==
      After([], |b|, Run(if b == [] then f else f.(state := AfterBlank(f.state)), rest, h))
    decreases |b|
  {
    if b == [] {
      assert b + rest == rest;
    } else {
      var f' := f.(state := AfterBlank(f.state));
      assert (b + rest)[0] == b[0] && (b + rest)[1..] == b[1..] + rest;
      assert Step(f, b[0], h) == Next(f', []);
      RunBlanks(f', b[1..], rest, h);
    }
  }

  /** Inside the command or the argument, token bytes are appended to it. */
  lemma {:induction false} RunToken(f: Fields, t: seq<char>, rest: seq<char>, h: Handlers)
    requires (f.state == Command || f.state == Argument) && IsToken(t)
    ensures Run(f, t + rest, h) == After([],  |t|,
      Run(if f.state == Command then f.(command := f.command + t) else f.(argument := f.argument + t), rest, h))
    decreases |t|
  {
    if t == [] {
      assert t + rest == rest;
      assert f.command + t == f.command && f.argument + t == f.argument;
    } else {
      var f' := if f.state == Command then f.(command := f.command + [t[0]]) else f.(argument := f.argument + [t[0]]);
      assert (t + rest)[0] == t[0] && (t + rest)[1..] == t[1..] + rest;
      assert Step(f, t[0], h) == Next(f', []);
      RunToken(f', t[1..], rest, h);
      assert f.command + [t[0]] + t[1..] == f.command + t;
      assert f.argument + [t[0]] + t[1..] == f.argument + t;
    }
  }

  /** The first byte of a token opens the command (from `initial`) or the
      argument (from `command_end`); the rest of the token is appended. */
  lemma {:induction false} RunOpenToken(f: Fields, t: seq<char>, rest: seq<char>, h: Handlers)
    requires (f.state == Initial || f.state == CommandEnd) && IsToken(t) && t != []
    requires f.state == Initial ==> f.command == ""
    requires f.state == CommandEnd ==> f.argument == ""
    ensures Run(f, t + rest, h) == After([], |t|,
      Run(if f.state == Initial then f.(state := Command, command := t) else f.(state := Argument, argument := t), rest, h))
  {
    var f' := if f.state == Initial then f.(state := Command, command := [t[0]]) else f.(state := Argument, argument := [t[0]]);
    assert (t + rest)[0] == t[0] && (t + rest)[1..] == t[1..] + rest;
    assert Step(f, t[0], h) == Next(f', []);
    RunToken(f', t[1..], rest, h);
    assert [t[0]] + t[1..] == t;
  }

  /** A well-formed line  blank* command (blank+ argument)? blank* '\n'  makes
      exactly one call of the request handler, with the command and the
      argument (empty when absent), and leaves the parser reset for the rest
      of the stream. */
  lemma {:induction false} WellFormedLine(f: Fields, lead: seq<char>, cmd: string, sep: seq<char>, arg: string, trail: seq<char>,
                       rest: seq<char>, h: Handlers)
    requires f == ResetFields
    requires AllBlank(lead) && AllBlank(sep) && AllBlank(trail)
    requires IsToken(cmd) && cmd != "" && IsToken(arg)
    requires arg != "" ==> sep != []
    ensures Run(f, lead + (cmd + (sep + (arg + (trail + (['\n'] + rest))))), h) ==
      After(if h.hasRequestHandler then [Request(cmd, arg)] else [],
            |lead| + |cmd| + |sep| + |arg| + |trail| + 1, Run(f, rest, h))
  {
    var s2 := sep + (arg + (trail + (['\n'] + rest)));
    var s1 := cmd + s2;
    var req := Emitted(Fields(Command, cmd, arg), h);
    assert Run(f, s1, h) == After(req, |cmd| + |sep| + |arg| + |trail| + 1, Run(f, rest, h)) by {
      RunOpenToken(f, cmd, s2, h);
      LineAfterCommand(Fields(Command, cmd, ""), sep, arg, trail, rest, h);
    }
    RunBlanks(f, lead, s1, h);
  }

  /** The part of a well-formed line after its command. */
  lemma {:induction false} LineAfterCommand(f: Fields, sep: seq<char>, arg: string, trail: seq<char>, rest: seq<char>, h: Handlers)
    requires f.state == Command && f.argument == ""
    requires AllBlank(sep) && AllBlank(trail) && IsToken(arg)
    requires arg != "" ==> sep != []
    ensures Run(f, sep + (arg + (trail + (['\n'] + rest))), h) ==
      After(Emitted(f.(argument := arg), h), |sep| + |arg| + |trail| + 1, Run(ResetFields, rest, h))
  {
    if arg == [] {
      LineWithoutArgument(f, sep, trail, rest, h);
    } else {
      LineWithArgument(f, sep, arg, trail, rest, h);
    }
  }

  lemma {:induction false} LineWithoutArgument(f: Fields, sep: seq<char>, trail: seq<char>, rest: seq<char>, h: Handlers)
    requires f.state == Command && f.argument == ""
    requires AllBlank(sep) && AllBlank(trail)
    ensures Run(f, sep + ("" + (trail + (['\n'] + rest))), h) ==
      After(Emitted(f, h), |sep| + |trail| + 1, Run(ResetFields, rest, h))
  {
    BlanksConcat(sep, trail, ['\n'] + rest);
    LineTail(f, sep + trail, rest, h);
  }

  /** Two runs of blanks are one run of blanks. */
  lemma {:induction false} BlanksConcat(a: seq<char>, b: seq<char>, x: seq<char>)
    requires AllBlank(a) && AllBlank(b)
    ensures AllBlank(a + b) && a + ("" + (b + x)) == (a + b) + x
  {
    var ab := a + b;
    assert forall i :: 0 <= i < |ab| ==> ab[i] == if i < |a| then a[i] else b[i - |a|];
  }

  lemma {:induction false} LineWithArgument(f: Fields, sep: seq<char>, arg: string, trail: seq<char>, rest: seq<char>, h: Handlers)
    requires f.state == Command && f.argument == ""
    requires AllBlank(sep) && AllBlank(trail) && IsToken(arg)
    requires arg != "" && sep != []
    ensures Run(f, sep + (arg + (trail + (['\n'] + rest))), h) ==
      After(Emitted(f.(argument := arg), h), |sep| + |arg| + |trail| + 1, Run(ResetFields, rest, h))
  {
    var s3 := arg + (trail + (['\n'] + rest));
    RunBlanks(f, sep, s3, h);
    ArgumentToLineEnd(f.(state := CommandEnd), arg, trail, rest, h);
  }

  /** From `command_end`: the argument, trailing blanks and the '\n'. */
  lemma {:induction false} ArgumentToLineEnd(f: Fields, arg: string, trail: seq<char>, rest: seq<char>, h: Handlers)
    requires f.state == CommandEnd && f.argument == ""
    requires AllBlank(trail) && IsToken(arg) && arg != ""
    ensures Run(f, arg + (trail + (['\n'] + rest)), h) ==
      After(Emitted(f.(argument := arg), h), |arg| + |trail| + 1, Run(ResetFields, rest, h))
  {
    var s4 := trail + (['\n'] + rest);
    var f3 := f.(state := Argument, argument := arg);
    RunOpenToken(f, arg, s4, h);
    LineTail(f3, trail, rest, h);
  }

  /** The request a completed line hands to the request handler, if one is set. */
  function Emitted(f: Fields, h: Handlers): seq<Event> {
    if h.hasRequestHandler then [Request(f.command, f.argument)] else []
  }

  /** Trailing blanks and the '\n' that ends a line holding a command. */
  lemma {:induction false} LineTail(f: Fields, trail: seq<char>, rest: seq<char>, h: Handlers)
    requires f.state == Command || f.state == CommandEnd || f.state == Argument || f.state == ArgumentEnd
    requires AllBlank(trail)
    ensures Run(f, trail + (['\n'] + rest), h) == After(Emitted(f, h), |trail| + 1, Run(ResetFields, rest, h))
  {
    RunBlanks(f, trail, ['\n'] + rest, h);
    if trail == [] {
      RunLineEnd(f, rest, h);
    } else {
      var g := f.(state := AfterBlank(f.state));
      assert g.state != Initial && g.state != Error;
      RunLineEnd(g, rest, h);
      assert Emitted(g, h) == Emitted(f, h);
    }
  }

  /** A '\n' in any state that holds a command completes the request. */
  lemma {:induction false} RunLineEnd(f: Fields, rest: seq<char>, h: Handlers)
    requires f.state == Command || f.state == CommandEnd || f.state == Argument || f.state == ArgumentEnd
    ensures Run(f, ['\n'] + rest, h) == After(Emitted(f, h), 1, Run(ResetFields, rest, h))
  {
    assert (['\n'] + rest)[0] == '\n' && (['\n'] + rest)[1..] == rest;
    assert Step(f, '\n', h) == Complete(f, h);
  }

  /** The handler configuration of a parser with both slots filled and an
      error handler that always answers false. */
  const Recovering := Handlers(true, Some((_: ParseError) => false))

  /** A command alone on its line, with or without trailing blanks, is
      requested with an empty argument ("cmd\n" and "cmd  \n" both give
      ("cmd", "")). */
  lemma {:induction false} CommandOnly(cmd: string, blanks: seq<char>)
    requires IsToken(cmd) && cmd != "" && AllBlank(blanks)
    ensures Run(ResetFields, cmd + (blanks + ['\n']), Recovering) ==
      Outcome(ResetFields, [Request(cmd, "")], |cmd| + |blanks| + 1)
  {
    var h := Recovering;
    assert Run(ResetFields, [], h) == Outcome(ResetFields, [], 0);
    WellFormedLine(ResetFields, [], cmd, blanks, [], [], [], h);
    assert [] + (cmd + (blanks + ([] + ([] + (['\n'] + []))))) == cmd + (blanks + ['\n']);
  }

  /** A line with a second argument,
      command blank+ argument blank+ extra junk '\n', makes no request: it
      raises one extra_argument (when an error handler is set) at `extra`, and
      the parser is back in its reset state after the '\n'. */
  lemma {:induction false} ExtraArgumentDropsLine(f: Fields, cmd: string, sep: seq<char>, arg: string, sep2: seq<char>,
                                                  extra: char, junk: seq<char>, rest: seq<char>, h: Handlers)
    requires f == ResetFields && Recovers(h)
    requires IsToken(cmd) && cmd != "" && IsToken(arg) && arg != ""
    requires AllBlank(sep) && sep != [] && AllBlank(sep2) && sep2 != []
    requires !IsBlank(extra) && extra != '\n'
    requires forall i :: 0 <= i < |junk| ==> junk[i] != '\n'
    ensures Run(f, cmd + (sep + (arg + (sep2 + ([extra] + (junk + (['\n'] + rest)))))), h) ==
      After(if h.errorHandler.Some? then [ErrorRaised(ExtraArgument)] else [],
            |cmd| + |sep| + |arg| + |sep2| + |junk| + 2, Run(f, rest, h))
  {
    var x := sep2 + ([extra] + (junk + (['\n'] + rest)));
    var g := Fields(Argument, cmd, arg);
    OpenArgument(f, cmd, sep, arg, x, h);
    ExtraArgumentTail(g, sep2, extra, junk, rest, h);
  }

  /** From the reset state, a command, blanks and an argument leave the parser
      in `argument` holding both. */
  lemma {:induction false} OpenArgument(f: Fields, cmd: string, sep: seq<char>, arg: string, x: seq<char>, h: Handlers)
    requires f == ResetFields
    requires IsToken(cmd) && cmd != "" && IsToken(arg) && arg != ""
    requires AllBlank(sep) && sep != []
    ensures Run(f, cmd + (sep + (arg + x)), h) == After([], |cmd| + |sep| + |arg|, Run(Fields(Argument, cmd, arg), x, h))
  {
    var c := Fields(Command, cmd, "");
    RunOpenToken(f, cmd, sep + (arg + x), h);
    RunBlanks(c, sep, arg + x, h);
    RunOpenToken(c.(state := CommandEnd), arg, x, h);
  }

  /** From `argument`: blanks, a byte that starts a second argument, and the
      rest of the line up to its '\n'. */
  lemma {:induction false} ExtraArgumentTail(g: Fields, sep2: seq<char>, extra: char, junk: seq<char>, rest: seq<char>,
                                             h: Handlers)
    requires g.state == Argument && Recovers(h)
    requires AllBlank(sep2) && sep2 != []
    requires !IsBlank(extra) && extra != '\n'
    requires forall i :: 0 <= i < |junk| ==> junk[i] != '\n'
    ensures Run(g, sep2 + ([extra] + (junk + (['\n'] + rest))), h) ==
      After(if h.errorHandler.Some? then [ErrorRaised(ExtraArgument)] else [],
            |sep2| + |junk| + 2, Run(ResetFields, rest, h))
  {
    var y := [extra] + (junk + (['\n'] + rest));
    var ge := g.(state := ArgumentEnd);
    RunBlanks(g, sep2, y, h);
    ExtraArgumentEntersError(ge, extra, h);
    assert y[0] == extra && y[1..] == junk + ['\n'] + rest;
    ErrorSkipsToLineEnd(ge.(state := Error), junk, rest, h);
  }

  /** "cmd a b\nx\n" raises one extra_argument, and the following line is
      then parsed normally. */
  lemma {:induction false} ExtraArgumentThenNextLine(cmd: string, a: string, b: char, x: string)
    requires IsToken(cmd) && cmd != "" && IsToken(a) && a != "" && IsToken(x) && x != ""
    requires !IsBlank(b) && b != '\n'
    ensures Run(ResetFields, cmd + ([' '] + (a + ([' '] + ([b] + (['\n'] + (x + ['\n'])))))), Recovering) ==
      Outcome(ResetFields, [ErrorRaised(ExtraArgument), Request(x, "")], |cmd| + |a| + |x| + 5)
  {
    var h := Recovering;
    assert Run(ResetFields, x + ['\n'], h) == Outcome(ResetFields, [Request(x, "")], |x| + 1) by {
      assert Run(ResetFields, [], h) == Outcome(ResetFields, [], 0);
      WellFormedLine(ResetFields, [], x, [], [], [], [], h);
      assert [] + (x + ([] + ([] + ([] + (['\n'] + []))))) == x + ['\n'];
    }
    ExtraArgumentDropsLine(ResetFields, cmd, [' '], a, [' '], b, [], x + ['\n'], h);
    assert [] + (['\n'] + (x + ['\n'])) == ['\n'] + (x + ['\n']);
  }

  /** With no request handler set, a completed line is dropped but the parser
      still resets. */
  lemma {:induction false} NoRequestHandlerDropsLine(cmd: string, arg: string)
    requires IsToken(cmd) && cmd != "" && IsToken(arg) && arg != ""
    ensures Run(ResetFields, cmd + ([' '] + (arg + ['\n'])), Handlers(false, None)) ==
      Outcome(ResetFields, [], |cmd| + |arg| + 2)
  {
    var h := Handlers(false, None);
    assert Run(ResetFields, [], h) == Outcome(ResetFields, [], 0);
    WellFormedLine(ResetFields, [], cmd, [' '], arg, [], [], h);
    assert [] + (cmd + ([' '] + (arg + ([] + (['\n'] + []))))) == cmd + ([' '] + (arg + ['\n']));
  }

  // ---------------------------------------------------------------------------
  // An empty line: the code as written and the corrected recovery

  /** As written, an empty or blank line raises one missing_command and then
      drops the whole line after it, up to and including its '\n', without a
      handler call. */
  lemma {:induction false} BlankLineDropsNextLine(blanks: seq<char>, junk: seq<char>, rest: seq<char>, h: Handlers)
    requires AllBlank(blanks)
    requires forall i :: 0 <= i < |junk| ==> junk[i] != '\n'
    requires Recovers(h)
    ensures Run(ResetFields, blanks + (['\n'] + (junk + (['\n'] + rest))), h) ==
      After(if h.errorHandler.Some? then [ErrorRaised(MissingCommand)] else [],
            |blanks| + |junk| + 2, Run(ResetFields, rest, h))
  {
    var tail := junk + (['\n'] + rest);
    var ev := if h.errorHandler.Some? then [ErrorRaised(MissingCommand)] else [];
    RunBlanks(ResetFields, blanks, ['\n'] + tail, h);
    assert (['\n'] + tail)[0] == '\n' && (['\n'] + tail)[1..] == tail;
    assert Step(ResetFields, '\n', h) == Next(Fields(Error, "", ""), ev);
    assert junk + ['\n'] + rest == tail;
    ErrorSkipsToLineEnd(Fields(Error, "", ""), junk, rest, h);
    Associative(ev, [], Run(ResetFields, rest, h).events);
  }

  /** `Step` with the recovery after a missing_command corrected: the '\n'
      that raised it has ended the line, so the parser resets instead of
      entering `error`. */
  function StepCorrected(f: Fields, c: char, h: Handlers): (r: StepResult)
    ensures f.state != Initial || c != '\n' ==> r == Step(f, c, h)
    ensures f.state == Initial && c == '\n' ==>
      r == match Step(f, c, h) case Stop(ev) => Stop(ev) case Next(_, ev) => Next(ResetFields, ev)
  {
    if f.state == Initial && c == '\n' then
      match Raise(f, MissingCommand, h)
      case Stop(ev) => Stop(ev)
      case Next(_, ev) => Next(ResetFields, ev)
    else Step(f, c, h)
  }

  /** The `for` loop of `parse` over the corrected step. */
  function RunCorrected(f: Fields, input: seq<char>, h: Handlers): (o: Outcome)
    ensures o.consumed <= |input|
    decreases |input|
  {
    if input == [] then Outcome(f, [], 0)
    else
      match StepCorrected(f, input[0], h)
      case Stop(ev) => Outcome(f, ev, 0)
      case Next(f', ev) =>
        var o := RunCorrected(f', input[1..], h);
        Outcome(o.fields, ev + o.events, o.consumed + 1)
  }

  /** The corrected parser keeps the line discipline for empty and blank
      lines: one missing_command, then the rest of the stream is parsed from
      the reset state. */
  lemma {:induction false} BlankLineThenRest(blanks: seq<char>, rest: seq<char>, h: Handlers)
    requires forall i :: 0 <= i < |blanks| ==> IsBlank(blanks[i])
    requires Recovers(h)
    ensures RunCorrected(ResetFields, blanks + ['\n'] + rest, h) ==
      After(if h.errorHandler.Some? then [ErrorRaised(MissingCommand)] else [], |blanks| + 1,
            RunCorrected(ResetFields, rest, h))
    decreases |blanks|
  {
    if blanks == [] {
      assert blanks + ['\n'] + rest == ['\n'] + rest;
      assert (['\n'] + rest)[1..] == rest;
    } else {
      assert (blanks + ['\n'] + rest)[0] == blanks[0];
      assert (blanks + ['\n'] + rest)[1..] == blanks[1..] + ['\n'] + rest;
      BlankLineThenRest(blanks[1..], rest, h);
    }
  }

  /** Outside `initial` the correction changes nothing: the rest of a line
      up to and including its '\n' (command, blanks, argument, or the junk
      of a line in `error`) is parsed as the code does. */
  lemma {:induction false} CorrectedCommandLine(f: Fields, t: string, h: Handlers)
    requires f.state != Initial
    requires forall i :: 0 <= i < |t| ==> t[i] != '\n'
    ensures RunCorrected(f, t + ['\n'], h) == Run(f, t + ['\n'], h)
    decreases |t|
  {
    if t == [] {
      assert t + ['\n'] == ['\n'];
    } else {
      assert (t + ['\n'])[0] == t[0] && (t + ['\n'])[1..] == t[1..] + ['\n'];
      match Step(f, t[0], h)
      case Stop(_) =>
      case Next(f', _) =>
        assert f'.state != Initial;
        CorrectedCommandLine(f', t[1..], h);
    }
  }

  /** As written, an empty line also swallows the line after it: "\nping\n"
      produces one missing_command and no request for "ping", while the
      corrected parser reports the error and then the request. */
  lemma {:induction false} EmptyLineSwallowsNextLine(cmd: string)
    requires IsToken(cmd) && cmd != ""
    ensures Run(ResetFields, ['\n'] + (cmd + ['\n']), Recovering).events == [ErrorRaised(MissingCommand)]
    ensures RunCorrected(ResetFields, ['\n'] + (cmd + ['\n']), Recovering).events ==
      [ErrorRaised(MissingCommand), Request(cmd, "")]
  {
    var h := Recovering;
    var input := ['\n'] + (cmd + ['\n']);
    assert input[0] == '\n' && input[1..] == cmd + ['\n'];
    assert Run(ResetFields, input, h).events == [ErrorRaised(MissingCommand)] by {
      assert Step(ResetFields, '\n', h) == Next(Fields(Error, "", ""), [ErrorRaised(MissingCommand)]);
      ErrorSkipsToLineEnd(Fields(Error, "", ""), cmd, [], h);
      assert cmd + ['\n'] + [] == cmd + ['\n'];
    }
    assert Run(ResetFields, cmd + ['\n'], h).events == [Request(cmd, "")] by {
      assert Run(ResetFields, [], h) == Outcome(ResetFields, [], 0);
      WellFormedLine(ResetFields, [], cmd, [], [], [], [], h);
      assert [] + (cmd + ([] + ([] + ([] + (['\n'] + []))))) == cmd + ['\n'];
    }
    assert RunCorrected(ResetFields, cmd + ['\n'], h) == Run(ResetFields, cmd + ['\n'], h) by {
      var c := cmd + ['\n'];
      assert c[0] == cmd[0] && c[1..] == cmd[1..] + ['\n'];
      assert Step(ResetFields, cmd[0], h) == Next(Fields(Command, [cmd[0]], ""), []);
      assert StepCorrected(ResetFields, cmd[0], h) == Step(ResetFields, cmd[0], h);
      CorrectedCommandLine(Fields(Command, [cmd[0]], ""), cmd[1..], h);
    }
    assert StepCorrected(ResetFields, '\n', h) == Next(ResetFields, [ErrorRaised(MissingCommand)]);
  }

  // ---------------------------------------------------------------------------
  // The object

  /** `protocol_parser`: the three fields it updates in place and the two
      handler slots. */
  class Parser {
    var state: State
    var curCommand: string
    var curArgument: string
    var hasRequestHandler: bool
    var errorHandler: Option<ParseError -> bool>

    function Value(): Fields
      reads this
    {
      Fields(state, curCommand, curArgument)
    }

    function Slots(): Handlers
      reads this
    {
      Handlers(hasRequestHandler, errorHandler)
    }

    /** A fresh parser is in the reset state, with empty handler slots. */
    constructor ()
      ensures Value() == ResetFields
      ensures Slots() == Handlers(false, None)
    {
      state, curCommand, curArgument := Initial, "", "";
      hasRequestHandler, errorHandler := false, None;
    }

    method SetRequestHandler(present: bool)
      modifies this
      ensures hasRequestHandler == present
      ensures Value() == old(Value()) && errorHandler == old(errorHandler)
    {
      hasRequestHandler := present;
    }

    method SetErrorHandler(handler: Option<ParseError -> bool>)
      modifies this
      ensures errorHandler == handler
      ensures Value() == old(Value()) && hasRequestHandler == old(hasRequestHandler)
    {
      errorHandler := handler;
    }

    /** Empties both tokens and goes back to `initial`. */
    method Reset()
      modifies this
      ensures Value() == ResetFields
      ensures Slots() == old(Slots())
    {
      curCommand := "";
      curArgument := "";
      state := Initial;
    }

    /** Consumes `input[begin..end]` byte by byte; returns the new position of
        `begin` and the handler calls made, in order. */
    method Parse(input: seq<char>, begin: nat, end: nat) returns (next: nat, events: seq<Event>)
      requires begin <= end <= |input|
      modifies this
      ensures var o := Run(old(Value()), input[begin..end], old(Slots()));
        Value() == o.fields && events == o.events && next == begin + o.consumed
      ensures Slots() == old(Slots())
    {
      ghost var h := Slots();
      next, events := begin, [];
      while next != end
        invariant begin <= next <= end
        invariant Slots() == h
        invariant Run(old(Value()), input[begin..end], h) == After(events, next - begin, Run(Value(), input[next..end], h))
        decreases end - next
      {
        assert input[next..end][0] == input[next] && input[next..end][1..] == input[next + 1..end];
        RunAfterStep(Run(old(Value()), input[begin..end], h), events, next - begin, Value(), input[next..end], h);
        var stop, ev := Consume(input[next]);
        events := events + ev;
        if stop {
          return;
        }
        next := next + 1;
      }
    }

    /** One round of the `switch` in `parse`: `stop` is true when the error
        handler asked to return in front of `c`. */
    method Consume(c: char) returns (stop: bool, ev: seq<Event>)
      modifies this
      ensures Step(old(Value()), c, old(Slots())) == (if stop then Stop(ev) else Next(Value(), ev))
      ensures stop ==> Value() == old(Value())
      ensures Slots() == old(Slots())
    {
      var raised: Option<ParseError> := None;
      stop, ev := false, [];
      match state {
      case Initial =>
        if c == '\n' {
          raised := Some(MissingCommand);
        } else if IsBlank(c) {
          state := Initial;
        } else {
          curCommand := curCommand + [c];
          state := Command;
        }
      case Command =>
        if c == '\n' {
          ev := ProcessRequest();
          Reset();
        } else if IsBlank(c) {
          state := CommandEnd;
        } else {
          curCommand := curCommand + [c];
          state := Command;
        }
      case CommandEnd =>
        if c == '\n' {
          ev := ProcessRequest();
          Reset();
        } else if IsBlank(c) {
          state := CommandEnd;
        } else {
          curArgument := curArgument + [c];
          state := Argument;
        }
      case Argument =>
        if c == '\n' {
          ev := ProcessRequest();
          Reset();
        } else if IsBlank(c) {
          state := ArgumentEnd;
        } else {
          curArgument := curArgument + [c];
          state := Argument;
        }
      case ArgumentEnd =>
        if c == '\n' {
          ev := ProcessRequest();
          Reset();
        } else if IsBlank(c) {
          state := ArgumentEnd;
        } else {
          raised := Some(ExtraArgument);
        }
      case Error =>
        if c == '\n' {
          Reset();
        } else {
          state := Error;
        }
      }
      if raised.Some? {
        if errorHandler.Some? {
          ev := [ErrorRaised(raised.value)];
          if errorHandler.value(raised.value) {
            stop := true;
            return;
          }
        }
        state := Error;
      }
    }

    /** `process_request()`: the call of the request handler, if one is set. */
    method ProcessRequest() returns (ev: seq<Event>)
      ensures hasRequestHandler ==> ev == [Request(curCommand, curArgument)]
      ensures !hasRequestHandler ==> ev == []
    {
      ev := if hasRequestHandler then [Request(curCommand, curArgument)] else [];
    }
  }
}
