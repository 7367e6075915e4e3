# vledd, modelled in Dafny

`vledd` is a small daemon that drives a virtual LED. Clients write request
lines of the form `command [argument]\n` into an input FIFO and read one
reply line per request, `OK [result]\n` or `FAILURE\n`, from an output FIFO.
The six commands switch the LED on and off, set and report its color, and
set and report its blink rate.

The project models the path a request takes through the daemon:

- `protocol_parser.dfy` is the push parser of `protocol_parser.h`. The class
  `Parser` holds the fields `parse` updates in place. Its `Parse` loop is
  proved against `Run`, a function that folds `Step` (one byte of the state
  machine) over the input. `Step` follows the code as written, including
  its recovery from a missing command: the parser enters `error`, so the
  line after an empty line is dropped. The lemmas are about `Run`: request
  tokens, error recovery, early stops, and independence from chunk
  boundaries. `StepCorrected` and `RunCorrected` hold the corrected
  recovery described under Findings; nothing else is built on them.
- `membuf.dfy` is `basic_membuf<char>` of `membuf.h`: a fixed `array`
  region with get and put cursors. `Put` is the effect of streaming bytes
  into it, which keeps at most the room of the put area.
- `server.dfy` is `server` of `server.h` and `server.cc`:
  - the command table, with `emplace` and `erase`;
  - the reply line formatted into a 64-byte `membuf`;
  - the write loop;
  - `handle_read`, with its read, parse and the parser's callbacks.
  `Serve` and `ServeStream` say which bytes go out for a given input stream.
- `event_reactor.dfy` is `event_reactor` of `event_reactor.h`: the callback
  map, kept equal to the kernel's epoll interest list, and the dispatch
  loop.
- `virtual_led.dfy` is `virtual_led` of `virtual_led.cc`, with its fields
  from `virtual_led.h`. It covers the guarded transitions of the four fields
  and the `itimerspec` computed by `setup_timer`.
- `conversions.dfy` covers `std::stoul` (which follows `strtoul`,
  section 7.22.1.4 of ISO C) and `std::to_string` for a 64-bit
  `unsigned long`.
- `vledd.dfy` holds the six handler lambdas of `vledd.cc`:
  - pure maps from the argument and the LED state;
  - for the three setters, also methods that drive a `VirtualLed` object
    and are proved to agree with the maps;
  - `Daemon`, which gives the exact reply stream and final LED state for any
    bytes written to the input FIFO between timer ticks, with the parser as
    written.
- `os.dfy` stands for the system calls: a FIFO as a queue of bytes and an
  epoll instance as its interest list. The kernel's choices that the program
  cannot see (how much a `write` takes, which fds are ready, signals) are
  nondeterministic. `wrappers.dfy` holds `Option`, `Result` and one lemma on
  concatenation.

The parser's callbacks are modelled as the list of calls the parser makes,
in order. This list is `Request(command, argument)` and
`ErrorRaised(kind)` events. The server answers them in that order. A
command handler is a function from the argument and the state it closes
over (the LED) to a response and the new state, or to a thrown exception.

## Model

| member | source | states |
|---|---|---|
| ProtocolParser.Parser.constructor | protocol_parser.h:53-56 | a new parser is in the reset state (`initial`, both tokens empty) with no handlers |
| ProtocolParser.Parser.SetRequestHandler | protocol_parser.h:58-62 | fills the request slot; fields and error slot unchanged |
| ProtocolParser.Parser.SetErrorHandler | protocol_parser.h:64-68 | fills the error slot; fields and request slot unchanged |
| ProtocolParser.Parser.Reset | protocol_parser.h:70-75 | empties both tokens and returns to `initial`; slots unchanged |
| ProtocolParser.Parser.ProcessRequest | protocol_parser.h:77-81 | calls the request handler with the two tokens exactly when one is set |
| ProtocolParser.Raise | protocol_parser.h:93-96 | definition: a raised error is handed to the error handler when one is set; the parser returns in front of the byte when it answers true, and enters `error` otherwise; its properties are `StepRaises`, `StepStops` and `ExtraArgumentEntersError` |
| ProtocolParser.Step | protocol_parser.h:88-170 | definition: one round of the `switch` as written, a missing_command included (it enters `error`); its properties are the lemmas below |
| ProtocolParser.Run | protocol_parser.h:83-172 | definition: the `for` loop of `parse`, folding `Step` until the input ends or a handler asks to return; it never consumes more than its input |
| ProtocolParser.Parser.Consume | protocol_parser.h:88-170 | one round of the `switch` as written: the new fields and calls are those of `Step`, so a missing_command answered false enters `error`; when the error handler asks to stop, the fields are left as they were |
| ProtocolParser.Parser.Parse | protocol_parser.h:83-172 | the loop leaves exactly the fields, handler calls and advanced `begin` of `Run` (the parser as written) over `input[begin..end]` |
| ProtocolParser.RunAfterStep | protocol_parser.h:86-171 | one more byte of a run extends its calls and consumed count as `Step` says |
| ProtocolParser.StepRaises | protocol_parser.h:90-162 | missing_command is raised exactly for '\n' in `initial`, extra_argument exactly for a non-blank, non-'\n' byte in `argument_end` |
| ProtocolParser.StepStops | protocol_parser.h:90-162 | the parser stops exactly when a raised error is answered true, with one error call |
| ProtocolParser.ExtraArgumentEntersError | protocol_parser.h:156-162 | extra_argument answered false (or with no handler) enters `error`, tokens untouched |
| ProtocolParser.StepPreservesWellFormed | protocol_parser.h:90-147 | one byte keeps the state/token relation and hands only well-formed requests |
| ProtocolParser.TokenGrows | protocol_parser.h:98-104 | a byte that is neither blank nor '\n' extends a token to a nonempty token |
| ProtocolParser.RunRequestsAreTokens | protocol_parser.h:90-147 | every request has a nonempty command, and no token holds a space, tab or '\n' |
| ProtocolParser.RunStopsAtOffendingByte | protocol_parser.h:90-162 | an early return leaves `begin` on the byte that raised the error, with the fields reached before it, and the last call is that error |
| ProtocolParser.RunConsumesAll | protocol_parser.h:86-171 | with an error handler that answers false, or none, `parse` consumes all its input |
| ProtocolParser.RunAppend | protocol_parser.h:84-171 | parsing `s` then `t` from the fields `s` left is parsing `s + t`; an early stop in `s` stops `s + t` at the same byte |
| ProtocolParser.ChunkBoundaryIndependence | protocol_parser.h:84-171 | feeding a stream in chunks of any sizes gives the calls, fields and count of feeding it at once |
| ProtocolParser.ErrorSkipsToLineEnd | protocol_parser.h:164-169 | in `error`, every byte up to and including the next '\n' is dropped without a call, then the parser is reset |
| ProtocolParser.RunBlanks | protocol_parser.h:98-155 | blanks are never stored and raise nothing; they only close the command or the argument |
| ProtocolParser.RunToken | protocol_parser.h:114-146 | inside a token, token bytes are appended to it |
| ProtocolParser.RunOpenToken | protocol_parser.h:100-132 | a token's first byte opens the command (from `initial`) or the argument (from `command_end`) |
| ProtocolParser.WellFormedLine | protocol_parser.h:106-157 | a line `blank* command (blank+ argument)? blank* '\n'` makes exactly one request with those tokens (argument empty when absent) and resets |
| ProtocolParser.LineAfterCommand | protocol_parser.h:106-157 | the rest of a well-formed line after its command completes the request |
| ProtocolParser.LineWithoutArgument | protocol_parser.h:106-127 | a command followed only by blanks and '\n' is requested with an empty argument |
| ProtocolParser.LineWithArgument | protocol_parser.h:120-157 | blanks, an argument, trailing blanks and '\n' after a command complete the request with that argument |
| ProtocolParser.ArgumentToLineEnd | protocol_parser.h:128-157 | from `command_end`, an argument, trailing blanks and '\n' complete the request |
| ProtocolParser.LineTail | protocol_parser.h:106-157 | trailing blanks and the '\n' of a line holding a command complete it |
| ProtocolParser.RunLineEnd | protocol_parser.h:107-153 | '\n' in any state holding a command calls the request handler and resets |
| ProtocolParser.CommandOnly | protocol_parser.h:106-127 | "cmd\n" and "cmd  \n" both give the single request ("cmd", "") |
| ProtocolParser.ExtraArgumentDropsLine | protocol_parser.h:148-169 | a line with a second argument makes no request, one extra_argument, and resets after its '\n' |
| ProtocolParser.OpenArgument | protocol_parser.h:100-133 | a command, blanks and an argument leave the parser in `argument` holding both |
| ProtocolParser.ExtraArgumentTail | protocol_parser.h:148-169 | from `argument`, blanks and a third token raise extra_argument and the line is dropped up to its '\n' |
| ProtocolParser.ExtraArgumentThenNextLine | protocol_parser.h:148-169 | "cmd a b\nx\n" gives one extra_argument, then the request ("x", "") |
| ProtocolParser.NoRequestHandlerDropsLine | protocol_parser.h:77-81 | with no request handler a completed line makes no call and the parser still resets |
| ProtocolParser.BlankLineDropsNextLine | protocol_parser.h:90-97 | as written, an empty or all-blank line raises one missing_command and then the whole next line is dropped up to its '\n' without a call; parsing resumes from the reset state after it |
| ProtocolParser.StepCorrected | protocol_parser.h:90-97 | the corrected step: identical to `Step` except that a missing_command that does not stop the parser resets it instead of entering `error` |
| ProtocolParser.RunCorrected | protocol_parser.h:83-172 | definition: the `for` loop of `parse` over `StepCorrected`; it never consumes more than its input |
| ProtocolParser.BlankLineThenRest | protocol_parser.h:90-99 | with the corrected recovery, an empty or all-blank line raises one missing_command and the next line is parsed from the reset state |
| ProtocolParser.CorrectedCommandLine | protocol_parser.h:106-169 | from any state but `initial`, the rest of a line up to and including its '\n' (command bytes, blanks, an argument, or the junk of a line in `error`) is parsed the same with and without the correction |
| ProtocolParser.EmptyLineSwallowsNextLine | protocol_parser.h:90-97 | as written, "\ncmd\n" gives only missing_command and no request; the corrected parser also gives the request ("cmd", "") |
| Membuf.ToCharType | membuf.h:53 | the stored byte is `c` reduced to eight bits |
| Membuf.Truncate | membuf.h:24-28 | a bounded area keeps the longest prefix that fits |
| Membuf.TruncateAppend | membuf.h:24-28 | writing `a` then `b` into a bounded area keeps what writing `a + b` keeps |
| Membuf.Membuf.FromSize | membuf.h:18-22 | get and put areas both cover `n` bytes from `s`; `begin() == end()` |
| Membuf.Membuf.FromRange | membuf.h:24-28 | get and put areas both cover `[begin, end)`; `begin() == end()` |
| Membuf.Membuf.Begin | membuf.h:30-33 | definition: `begin()` is the start of the put area |
| Membuf.Membuf.End | membuf.h:35-38 | `end()` is the put cursor, never before `begin()` nor past the end of the put area |
| Membuf.Membuf.Written | membuf.h:30-38 | the bytes between `begin()` and `end()` never exceed the put area |
| Membuf.Membuf.Setbuf | membuf.h:41-46 | both areas move to the new region and nothing is written any more |
| Membuf.Membuf.Pbackfail | membuf.h:48-58 | with room before `gptr`, steps it back, stores `c` there and returns `c`; otherwise returns eof and changes nothing |
| Membuf.Membuf.Put | membuf.h:24-38 | streamed bytes are stored at the put cursor until the area is full; written contents become the truncation of old contents plus the bytes; nothing outside the new bytes changes |
| Server.Encode | server.cc:117-123 | definition: the status, then a space and the result when the result is nonempty, then '\n'; its properties are `DecodeEncode` and `EncodeLength` |
| Server.Sent | server.cc:114-125 | definition: the reply line cut to the 64 bytes of the buffer; its properties are `SentFits` and `SentTruncates` |
| Server.DecodeEncode | server.cc:117-123 | every response is read back from its reply line |
| Server.EncodeLength | server.cc:117-123 | the length of a reply line, and exactly which responses fit in 64 bytes |
| Server.SentFits | server.cc:114-125 | a reply line that fits is sent whole and reads back as the response |
| Server.SentTruncates | server.cc:114-125 | an over-long reply loses its tail and its '\n': exactly its first 64 bytes are sent |
| Server.FailureSent | server.cc:117-123 | a failure is sent as exactly "FAILURE\n" |
| Server.OkSent | server.cc:117-123 | a success without result is sent as exactly "OK\n" |
| Server.Emplace | server.h:52-62 | definition: `std::map::emplace`; its effect is stated by `EmplaceEffect` |
| Server.Dispatch | server.cc:87-104 | definition: the response `handle_request` writes and the state the handler leaves; its cases are stated by `DispatchFailures` |
| Server.ServeOne | server.cc:87-110 | definition: the reply to one handler call of the parser, "FAILURE\n" for a parse error |
| Server.Serve | server.cc:80-84 | definition: the parser's handler calls answered in order, each from the state the previous left; `ServeAppend`, `ServeSingle` and `ServePrefix` state it is a fold |
| Server.ServeStream | server.cc:69-85 | definition: the output and final state for a byte stream, `Serve` over the calls of `Run` |
| Server.EmplaceEffect | server.h:52-62 | adding a new name inserts exactly that entry; adding a registered name keeps the first handler; other entries unchanged |
| Server.DispatchFailures | server.cc:87-104 | an unknown command (exact, case-sensitive lookup) or a throwing handler is answered "FAILURE\n"; an unknown command leaves the state alone |
| Server.ServeAppend | server.cc:69-85 | answering the calls of `e1 + e2` answers `e1`, then `e2` from the state `e1` left |
| Server.ServeSingle | server.cc:87-110 | answering a single call gives its reply |
| Server.ServePrefix | server.cc:69-85 | answering one more call appends its reply |
| Server.ServeRequestLine | server.cc:87-104 | a well-formed request line is answered by its command's reply and the stream goes on from the state the handler left |
| Server.ServeBlankLine | server.cc:106-110 | an empty or blank line is answered exactly "FAILURE\n"; the line after it is then dropped up to its '\n' with no reply, and serving resumes after that '\n' |
| Server.ServeExtraArgumentLine | server.cc:106-110 | a line with a second argument is answered exactly "FAILURE\n", no handler runs, and the next line is served normally |
| Server.ChunkingIsInvisible | server.cc:69-85 | output and final state depend only on the bytes received, not on how `read` split them |
| Server.FormatResponse | server.cc:112-125 | the 64-byte buffer holds the first min(length, 64) bytes of the reply line, and `towrite` counts them |
| Server.PutResult | server.cc:117-122 | status, space and result streamed one after the other keep what the three streamed at once keep |
| Server.PutLineEnd | server.cc:117-125 | after the '\n' the buffer holds the bytes `Sent` names |
| Server.Server.constructor | server.cc:36-57 | the parser gets a request handler and an error handler that answers false; empty command table; distinct FIFOs |
| Server.Server.AddCommand | server.h:52-62 | both overloads are `emplace` into the command table |
| Server.Server.RemoveCommand | server.h:64-67 | erases the name if present, a no-op otherwise |
| Server.Server.RemoveCommandCStr | server.h:69-74 | the same effect as the string overload |
| Server.Server.WriteResponse | server.cc:112-138 | on success exactly the sent bytes are appended to the output FIFO; a failed write ends with a proper prefix of them and an error |
| Server.Server.HandleRequest | server.cc:87-104 | writes the reply `Dispatch` gives and leaves the state the handler left |
| Server.Server.HandleParseError | server.cc:106-110 | writes exactly "FAILURE\n" and answers false |
| Server.Server.HandleEvent | server.cc:55-56 | a request goes to `handle_request`, a parse error to `handle_parse_error`; output as `ServeOne` says |
| Server.Server.HandleEvents | server.cc:80-84 | the parser's calls during one `parse` are answered in order; the output FIFO gains exactly `Serve`'s output |
| Server.Server.HandleRead | server.cc:69-85 | EAGAIN changes nothing; otherwise at most 64 bytes are taken, parsed (by the parser as written) from the previous fields and answered in order; the parse always consumes the chunk, so the "parsing client request failed" error never occurs |
| EventReactor.Dispatches | event_reactor.h:82-86 | one call per ready entry, in order, each to the callback of its fd |
| EventReactor.DispatchBound | event_reactor.h:69-86 | an interrupted wait dispatches nothing and no round dispatches more than 10 calls |
| EventReactor.EventReactor.constructor | event_reactor.h:36-41 | a new reactor watches nothing, in the kernel or in the map |
| EventReactor.EventReactor.AddFdWatch | event_reactor.h:43-58 | on success the fd's callback is the new handler (replacing an old one), others unchanged; an already-watched fd is modified, never refused with EEXIST; a failure changes neither map; kernel list and callback keys stay equal |
| EventReactor.EventReactor.DeleteFdWatch | event_reactor.h:60-65 | on success erases only `fd` from both; an unwatched fd fails with ENOENT and nothing changes |
| EventReactor.EventReactor.Run | event_reactor.h:67-88 | EINTR is retried with nothing dispatched; any other failure ends the loop; every entry of every round is dispatched to its fd's callback in order, and every ready fd has one |
| Os.Fifo.Read | server.cc:73 | -1 with EAGAIN on an empty pipe; otherwise the oldest min(count, available) bytes |
| Os.Fifo.Write | server.cc:129 | a nonempty prefix of the bytes is appended, or nothing and an error |
| Os.Epoll.Ctl | event_reactor.h:47-62 | ADD of a watched fd fails with EEXIST, MOD or DEL of an unwatched fd with ENOENT; a failed call leaves the interest list alone |
| Os.Epoll.Wait | event_reactor.h:74 | at most `maxEvents` entries, each for a watched fd, or -1 |
| VirtualLed.TurnOn | virtual_led.cc:89-97 | the LED is on and nothing else changes |
| VirtualLed.TurnOff | virtual_led.cc:99-107 | the LED is off and nothing else changes |
| VirtualLed.WithColor | virtual_led.cc:109-116 | only the color changes |
| VirtualLed.WithRate | virtual_led.cc:118-127 | the rate is stored; a rate of 0 forces the lit phase, otherwise the phase is kept |
| VirtualLed.Tick | virtual_led.cc:66-67 | the phase flips if and only if the rate is positive; nothing else changes |
| VirtualLed.SwitchIsIdempotent | virtual_led.cc:89-107 | switching on (off) twice is switching on (off) once, whatever came before |
| VirtualLed.TickTwice | virtual_led.cc:66-67 | two ticks restore the phase |
| VirtualLed.TimerSetting | virtual_led.cc:73-84 | definition: the `itimerspec` `setup_timer` computes; its properties are `TimerPeriod` |
| VirtualLed.TimerPeriod | virtual_led.cc:73-84 | off or rate 0 gives a zero setting; otherwise `sec * 10^9 + nsec == 10^9 / rate` with `nsec < 10^9`, first expiry equals the interval, and the setting is zero only for rates above 10^9 |
| VirtualLed.PeriodSplit | virtual_led.cc:76-77 | the whole seconds and the nanoseconds of 1/rate add up to 10^9/rate ns |
| VirtualLed.VirtualLed.constructor | virtual_led.cc:8-13 | on, red, rate 0, lit, timer disarmed |
| VirtualLed.VirtualLed.SetupTimer | virtual_led.cc:71-87 | the timer is set to the setting of the current state; the LED fields are unchanged |
| VirtualLed.VirtualLed.On | virtual_led.cc:89-97 | state becomes `TurnOn` of the old state; the timer is reset only when the LED was off |
| VirtualLed.VirtualLed.Off | virtual_led.cc:99-107 | state becomes `TurnOff` of the old state; the timer is reset only when the LED was on |
| VirtualLed.VirtualLed.SetColor | virtual_led.cc:109-116 | state becomes `WithColor`; the timer is untouched |
| VirtualLed.VirtualLed.SetRate | virtual_led.cc:118-127 | state becomes `WithRate`; the timer follows the new rate |
| VirtualLed.VirtualLed.HandleTimer | virtual_led.cc:57-69 | state becomes `Tick`; the timer is untouched |
| VirtualLed.VirtualLed.IsOn | virtual_led.cc:129-132 | returns the on field |
| VirtualLed.VirtualLed.GetColor | virtual_led.cc:134-137 | returns the color field |
| VirtualLed.VirtualLed.GetRate | virtual_led.cc:139-142 | returns the rate field |
| Conversions.Stoul | vledd.cc:73 | definition: `std::stoul`, white space, an optional sign and the longest run of digits; its properties are the `Stoul` lemmas below |
| Conversions.Negate | vledd.cc:73 | a magnitude read after a minus sign becomes its additive inverse modulo 2^64 |
| Conversions.ToDecimal | vledd.cc:81 | definition: `std::to_string`; its properties are `ToDecimalValue` |
| Conversions.ToDecimalValue | vledd.cc:81 | `to_string` writes a nonempty digit string with the value `n` and no leading zero |
| Conversions.StoulOfDigits | vledd.cc:73 | digits followed by a non-digit read as their value, or out of range above ULONG_MAX |
| Conversions.StoulToDecimal | vledd.cc:73-81 | `stoul` reads back what `to_string` writes, whatever non-digit follows |
| Conversions.StoulNegative | vledd.cc:73 | "-n" reads as 2^64 - n |
| Conversions.StoulInvalidArgument | vledd.cc:73 | `stoul` throws invalid_argument exactly when, after the white space, the string starts neither with a digit nor with a sign and a digit |
| Conversions.StoulNoDigits | vledd.cc:73 | white space, an optional sign, then no digit ("", " \tx", "-x", "+", "- 5") is an invalid argument |
| Conversions.StoulOutOfRange | vledd.cc:73 | a magnitude above ULONG_MAX is out of range, with or without a minus sign |
| Conversions.StoulSkipsSpaces | vledd.cc:73 | leading white space is skipped |
| Vledd.SetLedState | vledd.cc:18-32 | succeeds exactly for "on" and "off", switching only the on field; anything else fails and changes nothing |
| Vledd.GetLedState | vledd.cc:33-36 | answers "on" or "off" as the LED is, changing nothing |
| Vledd.SetLedColor | vledd.cc:37-56 | succeeds exactly for "red", "green", "blue", changing only the color; anything else fails and changes nothing |
| Vledd.GetLedColor | vledd.cc:57-70 | answers one of the three names, changing nothing |
| Vledd.SetLedRate | vledd.cc:71-78 | throws exactly when `stoul` does; fails for a rate above 5 and changes nothing; otherwise sets the rate |
| Vledd.GetLedRate | vledd.cc:79-82 | answers a decimal that `stoul` reads back as the rate, changing nothing |
| Vledd.Commands | vledd.cc:18-82 | definition: the table built by the six `add_command` calls; its contents are stated by `CommandsTable` |
| Vledd.CommandsTable | vledd.cc:18-82 | the table holds exactly the six names, each bound to its own handler |
| Vledd.StateRoundTrip | vledd.cc:18-36 | after a successful `set-led-state x`, `get-led-state` answers x; setting the reported state changes nothing |
| Vledd.ColorRoundTrip | vledd.cc:37-70 | after a successful `set-led-color x`, `get-led-color` answers x; setting the reported color changes nothing |
| Vledd.RateRoundTrip | vledd.cc:71-82 | after a successful `set-led-rate x`, `get-led-rate` answers the decimal of the value read from x |
| Vledd.RateFromDigits | vledd.cc:71-78 | a decimal followed by a non-digit sets that rate when at most 5 and is refused above 5 |
| Vledd.RateWithoutDigits | vledd.cc:71-78 | an argument with no digit after its white space and optional sign ("fast", "-x", "+", " \tx") makes the handler throw and changes nothing |
| Vledd.RunSetLedState | vledd.cc:18-32 | driving the LED object gives the response and new state of `SetLedState` |
| Vledd.RunSetLedColor | vledd.cc:37-56 | driving the LED object gives the response and new state of `SetLedColor` |
| Vledd.RunSetLedRate | vledd.cc:71-78 | driving the LED object gives the response (or the throw) and new state of `SetLedRate` |
| Vledd.DaemonColorSession | vledd.cc:37-70 | "set-led-color green\nget-led-color\n" is answered "OK\nOK green\n" and leaves the LED green |
| Vledd.DaemonRateAccepted | vledd.cc:71-78 | "set-led-rate n\n" with n at most 5 is answered "OK\n" and sets the rate |
| Vledd.DaemonRateRefused | vledd.cc:71-78 | "set-led-rate n\n" with n above 5 is answered "FAILURE\n" and changes nothing |
| Vledd.Daemon | vledd.cc:14-85 | definition: the replies and final LED state for the bytes written to the input FIFO, served with the six commands and the parser as written |
| Vledd.DaemonUnreadableRate | vledd.cc:71-78 | any rate argument `stoul` rejects (empty, no digit, or above ULONG_MAX), after any blanks, is answered "FAILURE\n" and changes nothing |
| Vledd.DaemonRateWithoutArgument | vledd.cc:71-78 | "set-led-rate\n" and "set-led-rate \n" are answered "FAILURE\n", since `stoul("")` throws, and change nothing |
| Vledd.DaemonUnknownCommand | server.cc:89-103 | a command outside the six names is answered "FAILURE\n" and changes nothing |
| Vledd.LineThenRest | server.cc:87-104 | a request line is answered by its command's reply and the rest is served from the state it left |
| Vledd.OneLine | server.cc:87-104 | a single request line is answered by its command's reply |

## Left out

- Creating and opening the FIFOs (`create_fifo` and the `open` calls of the server constructor) are filesystem I/O and are not modelled; the server is built over two FIFOs that are already open.
- `epoll_create` and its failure, and the 1000 ms timeout of `epoll_wait`, are not modelled: a timeout is a round with no entries.
- `assert` in the dispatch loop is proved to hold instead of being modelled as an abort.
- `draw()` and its terminal output are not modelled. The `timerfd_create` and `timerfd_settime` calls and the read loop that drains the expiration counter are left out too; only the `itimerspec` value is kept, as a field.
- `fd_guard` and the closing of descriptors are not modelled.
- The wiring in `main` is not modelled: the construction of the reactor, the LED and the server, `server::start`, the destructors and `er.run()`. `Daemon` starts from a server that already has the six commands.
- The `std::cerr` line logged for a throwing handler is not modelled.
- The internals of `std::ostream` and `std::basic_streambuf` are not modelled (overflow, the bad bit); `Membuf.Membuf.Put` states their effect, a bounded append.
- `basic_membuf<wchar_t>` is not modelled; only the `char` instance is used.
- Callbacks are not invoked from inside the dispatch loop. A callback that adds or removes watches while a round is being dispatched is not modelled.
- EventReactor.EventReactor.Run: covers a given number of rounds, because `while (1)` cannot be written as a terminating loop. A run that never fails is stated round by round.
- Server.Server.HandleRead: the whole chunk is parsed before its calls are answered. In the source a failed `write` inside a callback throws out of `parse` at that byte. That exception ends the process, so no later byte is observable either way.
- The epoll interest list is an ordinary field of `Os.Epoll`, because the nondeterministic `epoll_ctl` reads it to choose EEXIST and ENOENT.
- The error handler is a pure function of the error kind: a handler with state of its own, whose answer changes from one call to the next, is not modelled.
- Vledd.GetLedColor: the `default` branch of the `switch` is not modelled, because the color always holds one of the three enumerators.

## Findings

| source | as written | input that shows it | evidently intended | confidence | as-written member | corrected member |
|---|---|---|---|---|---|---|
| protocol_parser.h:90-97 | a '\n' in `initial` raises missing_command and then enters `error`, although that '\n' has already ended the line, so `error` also drops the whole next line | "\nping\n": one missing_command (one "FAILURE\n") and no request for "ping" | a malformed line gives exactly one failure and parsing resumes on the next line, so the parser resets after missing_command (`StepCorrected` and `RunCorrected`; `Step`, `Run`, `Parser.Consume` and the server keep the code as written) | not executed | ProtocolParser.EmptyLineSwallowsNextLine | ProtocolParser.BlankLineThenRest |
