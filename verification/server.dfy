/** `server` (server.h, server.cc): a command table over the protocol parser,
    reading requests from one FIFO and writing one reply line per request or
    parse error to another.

    The server is generic in the state `S` its command handlers work on (in the
    daemon, the LED): a handler takes the argument and that state, and either
    returns a response and the new state or throws. */
module Server {
  import opened Wrappers
  import opened Os
  import opened ProtocolParser
  import opened Membuf

  /** `in_buffer_size` and `out_buffer_size`. */
  const InBufferSize := 64
  const OutBufferSize := 64

  /** `server::response`. */
  datatype Response = Response(success: bool, result: string)

  /** `response{false}`: a failure with an empty result. */
  const Failure := Response(false, "")

  /** What a command handler did: it returned a response, or it threw; in
      both cases the state it left behind. */
  datatype HandlerOutcome<S> = Returned(response: Response, state: S) | Threw(state: S)

  /** A `std::function<response (std::string)>` closing over the state `S`. */
  type Handler<!S> = (string, S) -> HandlerOutcome<S>

  /** The two exceptions the server's own code throws: a `std::system_error`
      from a failed system call, with its errno, and the `std::runtime_error`
      of a parse that stopped early. */
  datatype Error = SystemError(errno: int) | ParseFailed

  // ---------------------------------------------------------------------------
  // The reply line

  /** "OK" or "FAILURE". */
  function Status(r: Response): string {
    if r.success then "OK" else "FAILURE"
  }

  /** The reply line: the status, then a space and the result when the result
      is nonempty, then '\n'. */
  function Encode(r: Response): string {
    Status(r) + (if r.result != "" then " " + r.result else "") + "\n"
  }

  /** How a client reads a reply line back. */
  function Decode(s: string): Option<Response> {
    if s == [] || s[|s| - 1] != '\n' then None
    else
      var body := s[..|s| - 1];
      if body == "OK" then Some(Response(true, ""))
      else if body == "FAILURE" then Some(Response(false, ""))
      else if |body| > 3 && body[..3] == "OK " then Some(Response(true, body[3..]))
      else if |body| > 8 && body[..8] == "FAILURE " then Some(Response(false, body[8..]))
      else None
  }

  /** Every response is recovered from its reply line. */
  lemma {:induction false} DecodeEncode(r: Response)
    ensures Decode(Encode(r)) == Some(r)
  {
    var s := Encode(r);
    var body := s[..|s| - 1];
    assert body == Status(r) + (if r.result != "" then " " + r.result else "");
    if r.result != "" {
      if r.success {
        assert body == "OK " + r.result;
        assert body != "OK" && body != "FAILURE" by {
          assert |body| > 2 && body[0] == 'O';
        }
        assert body[..3] == "OK ";
        assert body[3..] == r.result;
      } else {
        assert body == "FAILURE " + r.result;
        assert body != "OK" && body != "FAILURE" && body[..3] != "OK " by {
          assert |body| > 7 && body[0] == 'F';
        }
        assert body[..8] == "FAILURE ";
        assert body[8..] == r.result;
      }
    }
  }

  /** The length of a reply line. */
  lemma {:induction false} EncodeLength(r: Response)
    ensures |Encode(r)| == |Status(r)| + (if r.result == "" then 0 else |r.result| + 1) + 1
    ensures |Encode(r)| <= 64 <==> (r.success && |r.result| <= 60) || (!r.success && |r.result| <= 55)
  {
  }

  /** The bytes `write_response` hands to `write`: the reply line cut to the
      64-byte buffer. */
  function Sent(r: Response): string {
    Truncate(Encode(r), OutBufferSize)
  }

  /** A reply line that fits is sent whole and reads back as the response. */
  lemma {:induction false} SentFits(r: Response)
    requires |Encode(r)| <= OutBufferSize
    ensures Sent(r) == Encode(r)
    ensures Decode(Sent(r)) == Some(r)
  {
    DecodeEncode(r);
  }

  /** An over-long reply line loses its tail, the '\n' included: only its
      first 64 bytes are sent, and (when the result holds no '\n') what is
      sent is not a reply line at all. */
  lemma {:induction false} SentTruncates(r: Response)
    requires |Encode(r)| > OutBufferSize
    ensures |Sent(r)| == OutBufferSize && Sent(r) == Encode(r)[..OutBufferSize]
    ensures '\n' !in r.result ==> Decode(Sent(r)) == None
  {
    var e := Encode(r);
    if '\n' !in r.result {
      var prefix := Status(r) + " ";
      assert e == prefix + r.result + "\n";
      assert e[63] != '\n' by {
        assert e[63] == r.result[63 - |prefix|];
      }
      assert Sent(r)[63] == e[63];
    }
  }

  /** A failure is sent as exactly "FAILURE\n". */
  lemma {:induction false} FailureSent()
    ensures Sent(Failure) == "FAILURE\n"
  {
    assert Encode(Failure) == "FAILURE\n";
  }

  /** A success without a result is sent as exactly "OK\n". */
  lemma {:induction false} OkSent()
    ensures Sent(Response(true, "")) == "OK\n"
  {
    assert Encode(Response(true, "")) == "OK\n";
  }

  // ---------------------------------------------------------------------------
  // The command table

  /** `std::map::emplace`: inserts `(name, handler)` unless `name` is already a
      key. */
  function Emplace<S>(commands: map<string, Handler<S>>, name: string, handler: Handler<S>): map<string, Handler<S>> {
    if name in commands then commands else commands[name := handler]
  }

  /** Emplacing a new name adds exactly that entry; emplacing a name already
      present keeps the handler registered first. */
  lemma {:induction false} EmplaceEffect<S>(commands: map<string, Handler<S>>, name: string, handler: Handler<S>)
    ensures Emplace(commands, name, handler).Keys == commands.Keys + {name}
    ensures name !in commands ==> Emplace(commands, name, handler)[name] == handler
    ensures forall k :: k in commands ==> Emplace(commands, name, handler)[k] == commands[k]
  {
  }

  /** A response and the state left by a handler. */
  datatype Reply<S> = Reply(response: Response, state: S)

  /** `handle_request`'s choice of response: the handler registered under
      exactly `command`, its response if it returns, failure if it throws or
      if no handler has that name. */
  function Dispatch<S>(commands: map<string, Handler<S>>, command: string, argument: string, app: S): Reply<S> {
    if command !in commands then Reply(Failure, app)
    else
      match commands[command](argument, app)
      case Returned(r, s) => Reply(r, s)
      case Threw(s) => Reply(Failure, s)
  }

  /** An unknown command (names are compared exactly, case included) is
      answered "FAILURE\n" and the state is not touched; a handler that throws
      is answered "FAILURE\n" too. */
  lemma {:induction false} DispatchFailures<S>(commands: map<string, Handler<S>>, command: string, argument: string, app: S)
    ensures command !in commands ==>
      Dispatch(commands, command, argument, app) == Reply(Failure, app) &&
      Sent(Dispatch(commands, command, argument, app).response) == "FAILURE\n"
    ensures command in commands && commands[command](argument, app).Threw? ==>
      Sent(Dispatch(commands, command, argument, app).response) == "FAILURE\n"
    ensures command in commands && commands[command](argument, app).Returned? ==>
      Dispatch(commands, command, argument, app).response == commands[command](argument, app).response
  {
    FailureSent();
  }

  /** The output and the final state of a run of handler calls. */
  datatype Served<S> = Served(output: string, state: S)

  /** The answer to one handler call of the parser: the reply to a request,
      "FAILURE\n" for a parse error. */
  function ServeOne<S>(commands: map<string, Handler<S>>, e: Event, app: S): Served<S> {
    match e
    case Request(c, a) =>
      var d := Dispatch(commands, c, a, app);
      Served(Sent(d.response), d.state)
    case ErrorRaised(_) => Served(Sent(Failure), app)
  }

  /** The parser's handler calls served in order. */
  function Serve<S>(commands: map<string, Handler<S>>, events: seq<Event>, app: S): Served<S>
    decreases |events|
  {
    if events == [] then Served([], app)
    else
      var first := ServeOne(commands, events[0], app);
      var rest := Serve(commands, events[1..], first.state);
      Served(first.output + rest.output, rest.state)
  }

  /** Serving is a fold: serving `e1 + e2` serves `e1`, then `e2` from the
      state `e1` left. */
  lemma {:induction false} ServeAppend<S>(commands: map<string, Handler<S>>, e1: seq<Event>, e2: seq<Event>, app: S)
    ensures var p := Serve(commands, e1, app);
      var q := Serve(commands, e2, p.state);
      Serve(commands, e1 + e2, app) == Served(p.output + q.output, q.state)
    decreases |e1|
  {
    if e1 == [] {
      assert e1 + e2 == e2;
      assert [] + Serve(commands, e2, app).output == Serve(commands, e2, app).output;
    } else {
      var first := ServeOne(commands, e1[0], app);
      assert (e1 + e2)[0] == e1[0];
      assert (e1 + e2)[1..] == e1[1..] + e2;
      ServeAppend(commands, e1[1..], e2, first.state);
      var p := Serve(commands, e1[1..], first.state);
      var q := Serve(commands, e2, p.state);
      Associative(first.output, p.output, q.output);
    }
  }

  /** Serving a single handler call gives its answer. */
  lemma {:induction false} ServeSingle<S>(commands: map<string, Handler<S>>, e: Event, app: S)
    ensures Serve(commands, [e], app) == ServeOne(commands, e, app)
  {
    var first := ServeOne(commands, e, app);
    assert [e][1..] == [];
    assert first.output + [] == first.output;
  }

  /** Serving one more handler call of `events` appends its answer. */
  lemma {:induction false} ServePrefix<S>(commands: map<string, Handler<S>>, events: seq<Event>, i: nat, app: S)
    requires i < |events|
    ensures var b := Serve(commands, events[..i], app);
      var last := ServeOne(commands, events[i], b.state);
      Serve(commands, events[..i + 1], app) == Served(b.output + last.output, last.state)
  {
    assert events[..i + 1] == events[..i] + [events[i]];
    ServeAppend(commands, events[..i], [events[i]], app);
    ServeSingle(commands, events[i], Serve(commands, events[..i], app).state);
  }

  /** The handler slots the server gives its parser: a request handler, and
      an error handler that always answers false. */
  predicate ServerSlots(h: Handlers) {
    h.hasRequestHandler && h.errorHandler.Some? && Recovers(h)
  }

  /** Serving the byte stream `input` from parser fields `f`. */
  function ServeStream<S>(commands: map<string, Handler<S>>, f: Fields, input: seq<char>, h: Handlers, app: S): Served<S> {
    Serve(commands, Run(f, input, h).events, app)
  }

  /** A well-formed request line is answered by the reply to its request,
      and the rest of the stream is served from the state the handler left. */
  lemma {:induction false} ServeRequestLine<S>(commands: map<string, Handler<S>>, lead: seq<char>, cmd: string, sep: seq<char>,
                                               arg: string, trail: seq<char>, rest: seq<char>, h: Handlers, app: S)
    requires ServerSlots(h)
    requires AllBlank(lead) && AllBlank(sep) && AllBlank(trail)
    requires IsToken(cmd) && cmd != "" && IsToken(arg)
    requires arg != "" ==> sep != []
    ensures var d := Dispatch(commands, cmd, arg, app);
      var q := ServeStream(commands, ResetFields, rest, h, d.state);
      ServeStream(commands, ResetFields, lead + (cmd + (sep + (arg + (trail + (['\n'] + rest))))), h, app)
        == Served(Sent(d.response) + q.output, q.state)
  {
    WellFormedLine(ResetFields, lead, cmd, sep, arg, trail, rest, h);
    ServeAppend(commands, [Request(cmd, arg)], Run(ResetFields, rest, h).events, app);
    ServeSingle(commands, Request(cmd, arg), app);
  }

  /** An empty or blank line is answered "FAILURE\n"; the line after it is
      then dropped up to and including its '\n' without any reply, and the
      stream is served normally from there on. */
  lemma {:induction false} ServeBlankLine<S>(commands: map<string, Handler<S>>, blanks: seq<char>, junk: seq<char>,
                                             rest: seq<char>, h: Handlers, app: S)
    requires ServerSlots(h)
    requires AllBlank(blanks)
    requires forall i :: 0 <= i < |junk| ==> junk[i] != '\n'
    ensures var q := ServeStream(commands, ResetFields, rest, h, app);
      ServeStream(commands, ResetFields, blanks + (['\n'] + (junk + (['\n'] + rest))), h, app)
        == Served("FAILURE\n" + q.output, q.state)
  {
    BlankLineDropsNextLine(blanks, junk, rest, h);
    ServeAppend(commands, [ErrorRaised(MissingCommand)], Run(ResetFields, rest, h).events, app);
    ServeSingle(commands, ErrorRaised(MissingCommand), app);
    FailureSent();
  }

  /** A line with a second argument is answered "FAILURE\n" without calling
      any handler, and the next line is served normally. */
  lemma {:induction false} ServeExtraArgumentLine<S>(commands: map<string, Handler<S>>, cmd: string, sep: seq<char>, arg: string,
                                                     sep2: seq<char>, extra: char, junk: seq<char>, rest: seq<char>,
                                                     h: Handlers, app: S)
    requires ServerSlots(h)
    requires IsToken(cmd) && cmd != "" && IsToken(arg) && arg != ""
    requires AllBlank(sep) && sep != [] && AllBlank(sep2) && sep2 != []
    requires !IsBlank(extra) && extra != '\n'
    requires forall i :: 0 <= i < |junk| ==> junk[i] != '\n'
    ensures var q := ServeStream(commands, ResetFields, rest, h, app);
      ServeStream(commands, ResetFields, cmd + (sep + (arg + (sep2 + ([extra] + (junk + (['\n'] + rest)))))), h, app)
        == Served("FAILURE\n" + q.output, q.state)
  {
    ExtraArgumentDropsLine(ResetFields, cmd, sep, arg, sep2, extra, junk, rest, h);
    ServeAppend(commands, [ErrorRaised(ExtraArgument)], Run(ResetFields, rest, h).events, app);
    ServeSingle(commands, ErrorRaised(ExtraArgument), app);
    FailureSent();
  }

  /** Reading the stream in chunks: each chunk is parsed from the fields the
      previous one left, and its handler calls are served in turn. */
  function ServeChunks<S>(commands: map<string, Handler<S>>, f: Fields, chunks: seq<seq<char>>, h: Handlers, app: S): Served<S>
    decreases |chunks|
  {
    if chunks == [] then Served([], app)
    else
      var o := Run(f, chunks[0], h);
      var p := Serve(commands, o.events, app);
      var q := ServeChunks(commands, o.fields, chunks[1..], h, p.state);
      Served(p.output + q.output, q.state)
  }

  /** The output and the final state depend only on the bytes received, not on
      how `read` split them into chunks. */
  lemma {:induction false} ChunkingIsInvisible<S>(commands: map<string, Handler<S>>, f: Fields, chunks: seq<seq<char>>,
                                                  h: Handlers, app: S)
    requires ServerSlots(h)
    ensures ServeChunks(commands, f, chunks, h, app) == ServeStream(commands, f, Concat(chunks), h, app)
    decreases |chunks|
  {
    if chunks != [] {
      var o := Run(f, chunks[0], h);
      RunConsumesAll(f, chunks[0], h);
      RunAppend(f, chunks[0], Concat(chunks[1..]), h);
      var p := Serve(commands, o.events, app);
      ChunkingIsInvisible(commands, o.fields, chunks[1..], h, p.state);
      ServeAppend(commands, o.events, Run(o.fields, Concat(chunks[1..]), h).events, app);
    }
  }

  /** The first half of `write_response`: a `membuf` over a new 64-byte
      buffer, the status, the result and '\n' streamed into it, and the
      number of bytes it holds.  The buffer keeps the first 64 bytes of the
      reply line. */
  method FormatResponse(r: Response) returns (buf: array<char>, towrite: nat)
    ensures fresh(buf)
    ensures towrite <= buf.Length && buf[..towrite] == Sent(r)
  {
    buf := new char[OutBufferSize];
    var mbuf := new Membuf.FromRange(buf, 0, OutBufferSize);
    ghost var w0 := mbuf.Written();
    mbuf.Put(if r.success then "OK" else "FAILURE");
    ghost var w1 := mbuf.Written();
    ghost var shown := w1;
    if r.result != "" {
      mbuf.Put(" ");
      ghost var w2 := mbuf.Written();
      mbuf.Put(r.result);
      shown := mbuf.Written();
      PutResult(r, w1, w2, shown);
    }
    mbuf.Put("\n");
    ghost var w := mbuf.Written();
    PutLineEnd(r, w0, w1, shown, w);
    towrite := mbuf.End() - mbuf.Begin();
  }

  /** The status, a space and the result streamed one after the other keep
      what the three streamed at once keep. */
  lemma {:induction false} PutResult(r: Response, w1: string, w2: string, w3: string)
    requires w1 == Truncate([] + Status(r), OutBufferSize)
    requires w2 == Truncate(w1 + " ", OutBufferSize)
    requires w3 == Truncate(w2 + r.result, OutBufferSize)
    ensures w3 == Truncate(Status(r) + " " + r.result, OutBufferSize)
  {
    assert [] + Status(r) == Status(r);
    TruncateAppend(Status(r), " ", OutBufferSize);
    TruncateAppend(Status(r) + " ", r.result, OutBufferSize);
  }

  /** After the line end the buffer holds the first 64 bytes of the reply
      line. */
  lemma {:induction false} PutLineEnd(r: Response, w0: string, w1: string, shown: string, w: string)
    requires w0 == [] && w1 == Truncate(w0 + Status(r), OutBufferSize)
    requires r.result == "" ==> shown == w1
    requires r.result != "" ==> shown == Truncate(Status(r) + " " + r.result, OutBufferSize)
    requires w == Truncate(shown + "\n", OutBufferSize)
    ensures w == Sent(r)
  {
    var tail := if r.result != "" then " " + r.result else "";
    assert [] + Status(r) == Status(r);
    assert Status(r) + tail == (if r.result != "" then Status(r) + " " + r.result else Status(r));
    assert shown == Truncate(Status(r) + tail, OutBufferSize);
    TruncateAppend(Status(r) + tail, "\n", OutBufferSize);
  }

  // ---------------------------------------------------------------------------
  // The object

  class Server<S> {
    var parser: Parser
    var commands: map<string, Handler<S>>
    var fdin: Fifo
    var fdout: Fifo

    /** The parser's slots are those the constructor sets, and the two FIFOs
        are distinct. */
    predicate Valid()
      reads this, parser
    {
      ServerSlots(parser.Slots()) && fdin != fdout
    }

    /** Binds `handle_request` and `handle_parse_error` into the parser; the
        FIFOs are already open. */
    constructor (input: Fifo, output: Fifo)
      requires input != output
      ensures Valid() && fresh(parser)
      ensures fdin == input && fdout == output
      ensures commands == map[] && parser.Value() == ResetFields
    {
      var p := new Parser();
      parser, commands, fdin, fdout := p, map[], input, output;
      new;
      parser.SetRequestHandler(true);
      parser.SetErrorHandler(Some((_: ParseError) => false));
    }

    /** Both overloads of `add_command`. */
    method AddCommand(name: string, handler: Handler<S>)
      modifies this
      ensures commands == Emplace(old(commands), name, handler)
      ensures parser == old(parser) && fdin == old(fdin) && fdout == old(fdout)
    {
      if name !in commands {
        commands := commands[name := handler];
      }
    }

    /** `remove_command(const std::string&)`: erases `name` if present. */
    method RemoveCommand(name: string)
      modifies this
      ensures commands == old(commands) - {name}
      ensures parser == old(parser) && fdin == old(fdin) && fdout == old(fdout)
    {
      commands := commands - {name};
    }

    /** `remove_command(const char*)`: find, then erase what was found; the
        same effect as the other overload. */
    method RemoveCommandCStr(name: string)
      modifies this
      ensures commands == old(commands) - {name}
      ensures parser == old(parser) && fdin == old(fdin) && fdout == old(fdout)
    {
      if name in commands {
        commands := commands - {name};
      }
    }

    /** `write_response(r)`: the reply line is formatted into a 64-byte
        buffer, then written with `write` until every byte has gone out.  A
        failed `write` ends it with the bytes written so far. */
    method WriteResponse(r: Response) returns (err: Option<Error>)
      modifies fdout
      ensures err.None? ==> fdout.pending == old(fdout.pending) + Sent(r)
      ensures err.Some? ==> err.value.SystemError?
      ensures err.Some? ==> exists k :: 0 <= k < |Sent(r)| && fdout.pending == old(fdout.pending) + Sent(r)[..k]
    {
      var buf, towrite := FormatResponse(r);
      var total := 0;
      while total < towrite
        invariant 0 <= total <= towrite == |Sent(r)|
        invariant buf[..towrite] == Sent(r)
        invariant fdout.pending == old(fdout.pending) + Sent(r)[..total]
        decreases towrite - total
      {
        var n, errno := fdout.Write(buf[total..towrite]);
        if n == -1 {
          return Some(SystemError(errno));
        }
        assert Sent(r)[..total + n] == Sent(r)[..total] + buf[total..towrite][..n];
        total := total + n;
      }
      assert Sent(r)[..total] == Sent(r);
      err := None;
    }

    /** `handle_request(command, argument)`: dispatch, then reply. */
    method HandleRequest(command: string, argument: string, app: S) returns (app': S, err: Option<Error>)
      requires fdin != fdout
      modifies fdout
      ensures app' == Dispatch(commands, command, argument, app).state
      ensures err.None? ==> fdout.pending == old(fdout.pending) + Sent(Dispatch(commands, command, argument, app).response)
      ensures err.Some? ==> err.value.SystemError?
    {
      var r := Failure;
      app' := app;
      if command in commands {
        var outcome := commands[command](argument, app);
        match outcome {
          case Returned(response, s) =>
            r, app' := response, s;
          case Threw(s) =>
            app' := s;
        }
      }
      err := WriteResponse(r);
    }

    /** `handle_parse_error()`: reply "FAILURE\n" and answer false, so the
        parser goes on. */
    method HandleParseError() returns (stop: bool, err: Option<Error>)
      requires fdin != fdout
      modifies fdout
      ensures !stop
      ensures err.None? ==> fdout.pending == old(fdout.pending) + "FAILURE\n"
      ensures err.Some? ==> err.value.SystemError?
    {
      err := WriteResponse(Failure);
      FailureSent();
      stop := false;
    }

    /** The handler calls the parser makes during one `parse`, in order. */
    method HandleEvents(events: seq<Event>, app: S) returns (app': S, err: Option<Error>)
      requires fdin != fdout
      modifies fdout
      ensures err.None? ==> fdout.pending == old(fdout.pending) + Serve(commands, events, app).output
      ensures err.None? ==> app' == Serve(commands, events, app).state
      ensures err.Some? ==> err.value.SystemError?
    {
      app', err := app, None;
      ghost var table, start := commands, fdout.pending;
      ghost var served := Served([], app);
      var i := 0;
      while i < |events|
        invariant i <= |events| && err.None? && commands == table
        invariant served == Serve(table, events[..i], app)
        invariant fdout.pending == start + served.output && app' == served.state
      {
        ghost var last := ServeOne(table, events[i], app');
        app', err := HandleEvent(events[i], app');
        if err.Some? {
          return;
        }
        Associative(start, served.output, last.output);
        ServePrefix(table, events, i, app);
        served := Served(served.output + last.output, last.state);
        i := i + 1;
      }
      assert events[..i] == events;
    }

    /** One handler call: a request goes to `handle_request`, a parse error
        to `handle_parse_error`. */
    method HandleEvent(e: Event, app: S) returns (app': S, err: Option<Error>)
      requires fdin != fdout
      modifies fdout
      ensures err.None? ==> fdout.pending == old(fdout.pending) + ServeOne(commands, e, app).output
      ensures err.None? ==> app' == ServeOne(commands, e, app).state
      ensures err.Some? ==> err.value.SystemError?
    {
      match e {
        case Request(c, a) =>
          app', err := HandleRequest(c, a, app);
        case ErrorRaised(_) =>
          var stop;
          stop, err := HandleParseError();
          app' := app;
          FailureSent();
      }
    }

    /** `handle_read()`: one `read` of at most 64 bytes (EAGAIN: nothing to
        do), parsed from where the previous chunk left the parser, with every
        request and parse error answered in order.  The parser always consumes
        the whole chunk, so the "parsing client request failed" exception is
        never thrown. */
    method HandleRead(app: S) returns (app': S, err: Option<Error>)
      requires Valid()
      modifies fdin, fdout, parser
      ensures Valid()
      ensures err != Some(ParseFailed)
      ensures |fdin.pending| <= |old(fdin.pending)|
      ensures old(fdin.pending) == [] ==> err.None? && app' == app && fdout.pending == old(fdout.pending)
      ensures err.None? && fdin.pending != old(fdin.pending) ==>
        var chunk := old(fdin.pending)[..|old(fdin.pending)| - |fdin.pending|];
        var o := Run(old(parser.Value()), chunk, old(parser.Slots()));
        0 < |chunk| <= InBufferSize && fdin.pending == old(fdin.pending)[|chunk|..] &&
        parser.Value() == o.fields &&
        fdout.pending == old(fdout.pending) + Serve(commands, o.events, app).output &&
        app' == Serve(commands, o.events, app).state
      ensures err.None? && fdin.pending == old(fdin.pending) ==>
        app' == app && fdout.pending == old(fdout.pending) && parser.Value() == old(parser.Value())
    {
      var n, data, errno := fdin.Read(InBufferSize);
      if n == -1 {
        if errno == EAGAIN {
          return app, None;
        }
        return app, Some(SystemError(errno));
      }
      var next, events := parser.Parse(data, 0, |data|);
      assert data[0..|data|] == data;
      RunConsumesAll(old(parser.Value()), data, old(parser.Slots()));
      app', err := HandleEvents(events, app);
      if err.None? && next != |data| {
        err := Some(ParseFailed);
      }
      assert old(fdin.pending)[..|old(fdin.pending)| - |fdin.pending|] == data;
    }
  }
}
