/** The daemon `vledd` (vledd.cc): the six LED commands registered with the
    server.  A handler is a pure map from the argument and the LED state to
    a response and the new LED state (or a thrown exception); the handlers
    that change the LED also exist as methods driving a `VirtualLed` object,
    proved to agree with the pure maps. */
module Vledd {
  import opened Wrappers
  import opened Conversions
  import opened VirtualLed
  import opened ProtocolParser
  import opened Server

  /** `set-led-state`: exactly "on" or "off" switch the LED; anything else is
      refused and changes nothing. */
  function SetLedState(arg: string, led: Led): (o: HandlerOutcome<Led>)
    ensures o.Returned? && o.response.result == ""
    ensures o.response.success <==> arg == "on" || arg == "off"
    ensures o.response.success ==> o.state.on == (arg == "on") && o.state.(on := led.on) == led
    ensures !o.response.success ==> o.state == led
  {
    if arg == "on" then Returned(Response(true, ""), TurnOn(led))
    else if arg == "off" then Returned(Response(true, ""), TurnOff(led))
    else Returned(Failure, led)
  }

  /** `get-led-state`: reports "on" or "off" and changes nothing. */
  function GetLedState(arg: string, led: Led): (o: HandlerOutcome<Led>)
    ensures o.Returned? && o.state == led && o.response.success
    ensures o.response.result == "on" <==> led.on
    ensures o.response.result == "off" <==> !led.on
  {
    Returned(Response(true, if led.on then "on" else "off"), led)
  }

  /** `set-led-color`: exactly "red", "green" or "blue" set the color;
      anything else is refused and changes nothing. */
  function SetLedColor(arg: string, led: Led): (o: HandlerOutcome<Led>)
    ensures o.Returned? && o.response.result == ""
    ensures o.response.success <==> arg == "red" || arg == "green" || arg == "blue"
    ensures o.state.(color := led.color) == led
    ensures !o.response.success ==> o.state == led
  {
    if arg == "red" then Returned(Response(true, ""), WithColor(led, Red))
    else if arg == "green" then Returned(Response(true, ""), WithColor(led, Green))
    else if arg == "blue" then Returned(Response(true, ""), WithColor(led, Blue))
    else Returned(Failure, led)
  }

  /** `get-led-color`: reports the color's name and changes nothing.  The
      `default` branch of its `switch` cannot be reached, since the color
      always holds one of the three enumerators. */
  function GetLedColor(arg: string, led: Led): (o: HandlerOutcome<Led>)
    ensures o.Returned? && o.state == led && o.response.success
    ensures o.response.result == "red" || o.response.result == "green" || o.response.result == "blue"
  {
    match led.color
    case Red => Returned(Response(true, "red"), led)
    case Green => Returned(Response(true, "green"), led)
    case Blue => Returned(Response(true, "blue"), led)
  }

  /** `set-led-rate`: the argument is read with `std::stoul`; when that
      throws, so does the handler.  A rate above 5 is refused and changes
      nothing; otherwise the rate is set. */
  function SetLedRate(arg: string, led: Led): (o: HandlerOutcome<Led>)
    ensures o.Threw? <==> Stoul(arg).Err?
    ensures o.Threw? ==> o.state == led
    ensures o.Returned? ==> o.response.result == "" && (o.response.success <==> Stoul(arg).value <= 5)
    ensures o.Returned? && o.response.success ==> o.state == WithRate(led, Stoul(arg).value)
    ensures o.Returned? && !o.response.success ==> o.state == led
  {
    match Stoul(arg)
    case Err(_) => Threw(led)
    case Ok(rate) =>
      if rate > 5 then Returned(Failure, led)
      else Returned(Response(true, ""), WithRate(led, rate))
  }

  /** `get-led-rate`: reports the rate in decimal, which `stoul` reads back
      as the rate; nothing changes. */
  function GetLedRate(arg: string, led: Led): (o: HandlerOutcome<Led>)
    ensures o.Returned? && o.state == led && o.response.success
    ensures Stoul(o.response.result) == Ok(led.rate)
  {
    StoulToDecimal(led.rate, []);
    assert ToDecimal(led.rate) + [] == ToDecimal(led.rate);
    Returned(Response(true, ToDecimal(led.rate)), led)
  }

  /** The command table `main` builds, in its order of `add_command` calls. */
  function Commands(): map<string, Handler<Led>> {
    var none: map<string, Handler<Led>> := map[];
    var c1 := Emplace(none, "set-led-state", SetLedState);
    var c2 := Emplace(c1, "get-led-state", GetLedState);
    var c3 := Emplace(c2, "set-led-color", SetLedColor);
    var c4 := Emplace(c3, "get-led-color", GetLedColor);
    var c5 := Emplace(c4, "set-led-rate", SetLedRate);
    Emplace(c5, "get-led-rate", GetLedRate)
  }

  /** The six names are distinct, so each is bound to its own handler. */
  lemma {:induction false} CommandsTable()
    ensures Commands().Keys ==
      {"set-led-state", "get-led-state", "set-led-color", "get-led-color", "set-led-rate", "get-led-rate"}
    ensures Commands()["set-led-state"] == SetLedState && Commands()["get-led-state"] == GetLedState
    ensures Commands()["set-led-color"] == SetLedColor && Commands()["get-led-color"] == GetLedColor
    ensures Commands()["set-led-rate"] == SetLedRate && Commands()["get-led-rate"] == GetLedRate
  {
  }

  /** After `set-led-state x` succeeds, `get-led-state` answers x; and
      setting the state `get-led-state` reports changes nothing. */
  lemma {:induction false} StateRoundTrip(arg: string, led: Led)
    ensures SetLedState(arg, led).response.success ==>
      GetLedState("", SetLedState(arg, led).state).response == Response(true, arg)
    ensures SetLedState(GetLedState("", led).response.result, led) == Returned(Response(true, ""), led)
  {
  }

  /** After `set-led-color x` succeeds, `get-led-color` answers x; and
      setting the color `get-led-color` reports changes nothing. */
  lemma {:induction false} ColorRoundTrip(arg: string, led: Led)
    ensures SetLedColor(arg, led).response.success ==>
      GetLedColor("", SetLedColor(arg, led).state).response == Response(true, arg)
    ensures SetLedColor(GetLedColor("", led).response.result, led) == Returned(Response(true, ""), led)
  {
  }

  /** After `set-led-rate x` succeeds, `get-led-rate` answers the decimal
      form of the value `stoul` read from x; and setting the rate
      `get-led-rate` reports changes nothing. */
  lemma {:induction false} RateRoundTrip(arg: string, led: Led)
    ensures SetLedRate(arg, led).Returned? && SetLedRate(arg, led).response.success ==>
      GetLedRate("", SetLedRate(arg, led).state).response == Response(true, ToDecimal(Stoul(arg).value))
    ensures SetLedRate(GetLedRate("", led).response.result, led) ==
      if led.rate <= 5 then Returned(Response(true, ""), WithRate(led, led.rate)) else Returned(Failure, led)
  {
  }

  /** How `stoul` shapes `set-led-rate`: a decimal number followed by
      anything that is not a digit sets that rate when it is at most 5 ("3x"
      sets 3) and is refused above 5. */
  lemma {:induction false} RateFromDigits(led: Led, n: ULong, junk: string)
    requires junk == [] || !IsDigit(junk[0])
    ensures SetLedRate(ToDecimal(n) + junk, led) ==
      if n <= 5 then Returned(Response(true, ""), WithRate(led, n)) else Returned(Failure, led)
  {
    assert Stoul(ToDecimal(n) + junk) == Ok(n) by {
      StoulToDecimal(n, junk);
    }
  }

  /** An argument with no digit after its white space and optional sign
      makes `stoul` throw, and so the handler ("fast", "-x", "+", " \tx" all
      throw). */
  lemma {:induction false} RateWithoutDigits(led: Led, ws: string, sign: string, x: string)
    requires forall i :: 0 <= i < |ws| ==> IsSpace(ws[i])
    requires sign == "" || sign == "+" || sign == "-"
    requires x == [] || !IsDigit(x[0])
    requires sign == "" && x != [] ==> !IsSpace(x[0]) && x[0] != '+' && x[0] != '-'
    ensures SetLedRate(ws + (sign + x), led) == Threw(led)
  {
    StoulNoDigits(ws, sign, x);
  }

  // ---------------------------------------------------------------------------
  // The handlers that drive the LED object

  /** The `set-led-state` lambda, calling `on()` or `off()`. */
  method RunSetLedState(led: VirtualLed, arg: string) returns (r: Response)
    requires led.Valid()
    modifies led
    ensures led.Valid() && SetLedState(arg, old(led.Value())) == Returned(r, led.Value())
  {
    if arg == "on" {
      led.On();
      return Response(true, "");
    } else if arg == "off" {
      led.Off();
      return Response(true, "");
    } else {
      return Failure;
    }
  }

  /** The `set-led-color` lambda, calling `set_color`. */
  method RunSetLedColor(led: VirtualLed, arg: string) returns (r: Response)
    requires led.Valid()
    modifies led
    ensures led.Valid() && SetLedColor(arg, old(led.Value())) == Returned(r, led.Value())
  {
    if arg == "red" {
      led.SetColor(Red);
      return Response(true, "");
    } else if arg == "green" {
      led.SetColor(Green);
      return Response(true, "");
    } else if arg == "blue" {
      led.SetColor(Blue);
      return Response(true, "");
    } else {
      return Failure;
    }
  }

  /** The `set-led-rate` lambda, calling `set_rate`; `None` when `stoul`
      throws. */
  method RunSetLedRate(led: VirtualLed, arg: string) returns (r: Option<Response>)
    requires led.Valid()
    modifies led
    ensures led.Valid()
    ensures r.None? ==> SetLedRate(arg, old(led.Value())) == Threw(led.Value())
    ensures r.Some? ==> SetLedRate(arg, old(led.Value())) == Returned(r.value, led.Value())
  {
    match Stoul(arg) {
      case Err(_) =>
        return None;
      case Ok(rate) =>
        if rate > 5 {
          return Some(Failure);
        }
        led.SetRate(rate);
        return Some(Response(true, ""));
    }
  }

  // ---------------------------------------------------------------------------
  // The whole daemon

  /** The reply stream and the final LED state for the bytes written to the
      input FIFO, from a freshly started server with the six commands. */
  function Daemon(input: string, led: Led): Served<Led> {
    ServeStream(Commands(), ResetFields, input, Recovering, led)
  }

  /** Two requests in one stream: the color is set, then reported. */
  lemma {:induction false} DaemonColorSession(led: Led)
    ensures Daemon("set-led-color green\nget-led-color\n", led) ==
      Served("OK\n" + "OK green\n", WithColor(led, Green))
  {
    assert "set-led-color green\nget-led-color\n" == "set-led-color green\n" + "get-led-color\n";
    ColorSessionLines(led, "set-led-color green\n", "get-led-color\n");
  }

  lemma {:induction false} ColorSessionLines(led: Led, line1: string, line2: string)
    requires line1 == "set-led-color green\n" && line2 == "get-led-color\n"
    ensures Daemon(line1 + line2, led) == Served("OK\n" + "OK green\n", WithColor(led, Green))
  {
    var green := WithColor(led, Green);
    ReportGreen(green, line2);
    SetGreen(led);
    LineThenRest(led, "set-led-color", " ", "green", line1, line2, Response(true, ""), green, "OK\n");
  }

  lemma {:induction false} ReportGreen(green: Led, line: string)
    requires green.color == Green && line == "get-led-color\n"
    ensures Daemon(line, green) == Served("OK green\n", green)
  {
    GetGreen(green);
    OneLine(green, "get-led-color", "", "", line, Response(true, "green"), green, "OK green\n");
  }

  lemma {:induction false} SetGreen(led: Led)
    ensures Dispatch(Commands(), "set-led-color", "green", led) == Reply(Response(true, ""), WithColor(led, Green))
    ensures Sent(Response(true, "")) == "OK\n"
  {
    CommandsTable();
    OkSent();
  }

  lemma {:induction false} GetGreen(green: Led)
    requires green.color == Green
    ensures Dispatch(Commands(), "get-led-color", "", green) == Reply(Response(true, "green"), green)
    ensures Sent(Response(true, "green")) == "OK green\n"
  {
    CommandsTable();
    assert Encode(Response(true, "green")) == "OK green\n";
  }

  /** `set-led-rate n` for a decimal n of at most 5: "OK\n", and the LED
      takes the new rate. */
  lemma {:induction false} DaemonRateAccepted(led: Led, n: ULong)
    requires n <= 5
    ensures Daemon("set-led-rate" + " " + ToDecimal(n) + "\n", led) == Served("OK\n", WithRate(led, n))
  {
    var d := ToDecimal(n);
    DecimalIsToken(n);
    RateDispatch(led, n);
    OkSent();
    OneLine(led, "set-led-rate", " ", d, "set-led-rate" + " " + d + "\n", Response(true, ""), WithRate(led, n), "OK\n");
  }

  /** `set-led-rate n` for a decimal n above 5: "FAILURE\n", and the LED is
      unchanged ("set-led-rate 9"). */
  lemma {:induction false} DaemonRateRefused(led: Led, n: ULong)
    requires n > 5
    ensures Daemon("set-led-rate" + " " + ToDecimal(n) + "\n", led) == Served("FAILURE\n", led)
  {
    var d := ToDecimal(n);
    DecimalIsToken(n);
    RateDispatch(led, n);
    FailureSent();
    OneLine(led, "set-led-rate", " ", d, "set-led-rate" + " " + d + "\n", Failure, led, "FAILURE\n");
  }

  lemma {:induction false} RateDispatch(led: Led, n: ULong)
    ensures Dispatch(Commands(), "set-led-rate", ToDecimal(n), led) ==
      if n <= 5 then Reply(Response(true, ""), WithRate(led, n)) else Reply(Failure, led)
  {
    CommandsTable();
    RateFromDigits(led, n, []);
    assert ToDecimal(n) + [] == ToDecimal(n);
  }

  /** `to_string` writes a nonempty token. */
  lemma {:induction false} DecimalIsToken(n: nat)
    ensures IsToken(ToDecimal(n)) && ToDecimal(n) != []
  {
    ToDecimalValue(n);
    var d := ToDecimal(n);
    assert forall i :: 0 <= i < |d| ==> IsDigit(d[i]);
  }

  /** A rate `stoul` cannot read (none at all, no digit as in
      "set-led-rate fast", or a value above ULONG_MAX) makes the handler
      throw, which is answered "FAILURE\n"; the LED does not change. */
  lemma {:induction false} DaemonUnreadableRate(led: Led, sep: string, arg: string)
    requires AllBlank(sep) && IsToken(arg) && (arg != "" ==> sep != [])
    requires Stoul(arg).Err?
    ensures Daemon("set-led-rate" + sep + arg + "\n", led) == Served("FAILURE\n", led)
  {
    assert Dispatch(Commands(), "set-led-rate", arg, led) == Reply(Failure, led) by {
      CommandsTable();
    }
    FailureSent();
    OneLine(led, "set-led-rate", sep, arg, "set-led-rate" + sep + arg + "\n", Failure, led, "FAILURE\n");
  }

  /** `set-led-rate` without an argument, with or without a blank after it:
      `stoul("")` throws, so the line is answered "FAILURE\n". */
  lemma {:induction false} DaemonRateWithoutArgument(led: Led)
    ensures Daemon("set-led-rate\n", led) == Served("FAILURE\n", led)
    ensures Daemon("set-led-rate \n", led) == Served("FAILURE\n", led)
  {
    StoulNoDigits("", "", "");
    assert Stoul("") == Err(InvalidArgument) by {
      assert "" + ("" + "") == "";
    }
    DaemonUnreadableRate(led, "", "");
    assert "set-led-rate" + "" + "" + "\n" == "set-led-rate\n";
    DaemonUnreadableRate(led, " ", "");
    assert "set-led-rate" + " " + "" + "\n" == "set-led-rate \n";
  }

  /** A line whose command is none of the six names is answered "FAILURE\n"
      and changes nothing; names are compared exactly, so "Get-Led-Rate" is
      unknown too. */
  lemma {:induction false} DaemonUnknownCommand(led: Led, cmd: string, arg: string)
    requires IsToken(cmd) && cmd != "" && IsToken(arg)
    requires cmd !in {"set-led-state", "get-led-state", "set-led-color", "get-led-color", "set-led-rate", "get-led-rate"}
    ensures Daemon(cmd + (if arg == "" then "" else " " + arg) + "\n", led) == Served("FAILURE\n", led)
  {
    assert Dispatch(Commands(), cmd, arg, led) == Reply(Failure, led) by {
      CommandsTable();
    }
    FailureSent();
    var sep := if arg == "" then "" else " ";
    assert cmd + (if arg == "" then "" else " " + arg) + "\n" == cmd + sep + arg + "\n";
    OneLine(led, cmd, sep, arg, cmd + sep + arg + "\n", Failure, led, "FAILURE\n");
  }

  /** A request line is answered by its command, and what follows it is
      served from the state the command left. */
  lemma {:induction false} LineThenRest(led: Led, cmd: string, sep: string, arg: string, line: string, rest: string,
                                        response: Response, state: Led, reply: string)
    requires IsToken(cmd) && cmd != "" && AllBlank(sep) && IsToken(arg) && (arg != "" ==> sep != [])
    requires line == cmd + sep + arg + "\n"
    requires Dispatch(Commands(), cmd, arg, led) == Reply(response, state)
    requires Sent(response) == reply
    ensures Daemon(line + rest, led) == Served(reply + Daemon(rest, state).output, Daemon(rest, state).state)
  {
    assert line + rest == [] + (cmd + (sep + (arg + ([] + (['\n'] + rest)))));
    ServeRequestLine(Commands(), [], cmd, sep, arg, [], rest, Recovering, led);
  }

  /** A single request line, answered by its command. */
  lemma {:induction false} OneLine(led: Led, cmd: string, sep: string, arg: string, line: string,
                                   response: Response, state: Led, reply: string)
    requires IsToken(cmd) && cmd != "" && AllBlank(sep) && IsToken(arg) && (arg != "" ==> sep != [])
    requires line == cmd + sep + arg + "\n"
    requires Dispatch(Commands(), cmd, arg, led) == Reply(response, state)
    requires Sent(response) == reply
    ensures Daemon(line, led) == Served(reply, state)
  {
    LineThenRest(led, cmd, sep, arg, line, [], response, state, reply);
    assert line + [] == line;
    assert reply + [] == reply;
  }
}
