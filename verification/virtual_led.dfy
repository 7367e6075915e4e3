/** `virtual_led` (virtual_led.h, virtual_led.cc): the LED's on/off switch,
    color, blink rate and blink phase, and the timer interval derived from
    them.  Drawing on the terminal and the timerfd system calls are not part
    of this model; the interval last handed to `timerfd_settime` is kept as a
    field. */
module VirtualLed {
  import opened Conversions

  /** `virtual_led::color`. */
  datatype Color = Red | Green | Blue

  /** The four fields `on_`, `color_`, `rate_` and `blink_on_`. */
  datatype Led = Led(on: bool, color: Color, rate: ULong, blinkOn: bool)

  /** The state the constructor sets up: on, red, not blinking, lit. */
  const InitialLed := Led(true, Red, 0, true)

  /** `on()`: switches the LED on; nothing else changes. */
  function TurnOn(l: Led): (r: Led)
    ensures r.on && r.(on := l.on) == l
  {
    if !l.on then l.(on := true) else l
  }

  /** `off()`: switches the LED off; nothing else changes. */
  function TurnOff(l: Led): (r: Led)
    ensures !r.on && r.(on := l.on) == l
  {
    if l.on then l.(on := false) else l
  }

  /** `set_color(c)`: only the color changes. */
  function WithColor(l: Led, c: Color): (r: Led)
    ensures r.color == c && r.(color := l.color) == l
  {
    if l.color != c then l.(color := c) else l
  }

  /** `set_rate(r)`: stores the rate; a rate of 0 stops blinking with the LED
      lit. */
  function WithRate(l: Led, rate: ULong): (r: Led)
    ensures r.rate == rate && r.on == l.on && r.color == l.color
    ensures rate == 0 ==> r.blinkOn
    ensures rate != 0 ==> r.blinkOn == l.blinkOn
  {
    var l' := l.(rate := rate);
    if rate == 0 then l'.(blinkOn := true) else l'
  }

  /** The state change of `handle_timer()`: a blinking LED flips its phase. */
  function Tick(l: Led): (r: Led)
    ensures r.(blinkOn := l.blinkOn) == l
    ensures r.blinkOn != l.blinkOn <==> l.rate > 0
  {
    if l.rate > 0 then l.(blinkOn := !l.blinkOn) else l
  }

  /** Switching on (or off) twice is switching on (or off) once. */
  lemma {:induction false} SwitchIsIdempotent(l: Led)
    ensures TurnOn(TurnOn(l)) == TurnOn(l)
    ensures TurnOff(TurnOff(l)) == TurnOff(l)
    ensures TurnOn(TurnOff(l)) == TurnOn(l) && TurnOff(TurnOn(l)) == TurnOff(l)
  {
  }

  /** Two ticks restore the blink phase. */
  lemma {:induction false} TickTwice(l: Led)
    ensures Tick(Tick(l)) == l
  {
  }

  /** A `struct timespec`. */
  datatype TimeSpec = TimeSpec(sec: int, nsec: int)

  /** A `struct itimerspec`: the reload interval and the first expiry. */
  datatype ITimerSpec = ITimerSpec(interval: TimeSpec, value: TimeSpec)

  const NanosPerSecond := 1_000_000_000

  /** A disarmed timer. */
  const Disarmed := ITimerSpec(TimeSpec(0, 0), TimeSpec(0, 0))

  /** The setting `setup_timer` computes: for a lit, blinking LED, the period
      1/rate s cut into whole seconds and nanoseconds, as both interval and
      first expiry; otherwise a disarmed timer. */
  function TimerSetting(on: bool, rate: ULong): ITimerSpec {
    if on && rate > 0 then
      var period := TimeSpec(1 / rate, NanosPerSecond / rate % NanosPerSecond);
      ITimerSpec(period, period)
    else Disarmed
  }

  /** The timer is armed only for a lit, blinking LED; its interval is the
      period 1/rate s truncated to whole nanoseconds, with the nanoseconds
      below one second, and the first expiry is one interval away.  A rate
      above one per nanosecond truncates the period to zero, which disarms
      the timer. */
  lemma {:induction false} TimerPeriod(on: bool, rate: ULong)
    ensures var t := TimerSetting(on, rate);
      t.value == t.interval && 0 <= t.interval.nsec < NanosPerSecond
    ensures !(on && rate > 0) ==> TimerSetting(on, rate) == Disarmed
    ensures on && rate > 0 ==>
      var i := TimerSetting(on, rate).interval;
      i.sec * NanosPerSecond + i.nsec == NanosPerSecond / rate
    ensures on && rate > 0 ==> (TimerSetting(on, rate) != Disarmed <==> rate <= NanosPerSecond)
  {
    if on && rate > 0 {
      PeriodSplit(rate);
      var i := TimerSetting(on, rate).interval;
      if rate == 1 {
        assert i == TimeSpec(1, 0);
      } else {
        Quotient(1, rate);
        assert i.sec == 0;
      }
    }
  }

  /** Seconds and nanoseconds of a 1/rate-second period add up; the period
      is zero only for rates above one per nanosecond. */
  lemma {:induction false} PeriodSplit(rate: ULong)
    requires rate > 0
    ensures (1 / rate) * NanosPerSecond + NanosPerSecond / rate % NanosPerSecond == NanosPerSecond / rate
    ensures NanosPerSecond / rate > 0 <==> rate <= NanosPerSecond
  {
    var q := NanosPerSecond / rate;
    if rate == 1 {
      assert q == NanosPerSecond;
    } else {
      Quotient(1, rate);
      Quotient(NanosPerSecond, rate);
      assert q % NanosPerSecond == q;
    }
    Quotient(NanosPerSecond, rate);
  }

  /** Bounds on a quotient of naturals. */
  lemma {:induction false} Quotient(n: nat, d: nat)
    requires d > 0
    ensures n < d ==> n / d == 0
    ensures d <= n ==> n / d > 0
    ensures d >= 2 && n > 0 ==> n / d < n
  {
  }

  class VirtualLed {
    var on: bool
    var color: Color
    var rate: ULong
    var blinkOn: bool
    /** The setting last given to `timerfd_settime`. */
    var timer: ITimerSpec

    function Value(): Led
      reads this
    {
      Led(on, color, rate, blinkOn)
    }

    /** The timer runs exactly while the LED is lit and blinking, with the
        period of the current rate. */
    predicate Valid()
      reads this
    {
      timer == TimerSetting(on, rate)
    }

    /** `virtual_led(er)`: on, red, rate 0, lit; a new timerfd is disarmed. */
    constructor ()
      ensures Valid() && Value() == InitialLed && timer == Disarmed
    {
      on, color, rate, blinkOn := true, Red, 0, true;
      timer := Disarmed;
    }

    /** `setup_timer()`. */
    method SetupTimer()
      modifies this
      ensures Valid() && Value() == old(Value())
    {
      var interval;
      if on && rate > 0 {
        interval := TimeSpec(1 / rate, NanosPerSecond / rate % NanosPerSecond);
      } else {
        interval := TimeSpec(0, 0);
      }
      timer := ITimerSpec(interval, interval);
    }

    /** `on()`: the timer is set up again only when the LED was off. */
    method On()
      requires Valid()
      modifies this
      ensures Valid() && Value() == TurnOn(old(Value()))
      ensures old(on) ==> timer == old(timer)
    {
      if !on {
        on := true;
        SetupTimer();
      }
    }

    /** `off()`: the timer is set up again (disarmed) only when the LED was
        on. */
    method Off()
      requires Valid()
      modifies this
      ensures Valid() && Value() == TurnOff(old(Value()))
      ensures !old(on) ==> timer == old(timer)
    {
      if on {
        on := false;
        SetupTimer();
      }
    }

    /** `set_color(c)`. */
    method SetColor(c: Color)
      requires Valid()
      modifies this
      ensures Valid() && Value() == WithColor(old(Value()), c)
      ensures timer == old(timer)
    {
      if color != c {
        color := c;
      }
    }

    /** `set_rate(r)`: the timer is set up for the new rate before a rate of
        0 relights the LED. */
    method SetRate(r: ULong)
      requires Valid()
      modifies this
      ensures Valid() && Value() == WithRate(old(Value()), r)
    {
      rate := r;
      SetupTimer();
      if rate == 0 {
        blinkOn := true;
      }
    }

    /** The state change of `handle_timer()`, once the expirations are
        drained. */
    method HandleTimer()
      requires Valid()
      modifies this
      ensures Valid() && Value() == Tick(old(Value()))
      ensures timer == old(timer)
    {
      if rate > 0 {
        blinkOn := !blinkOn;
      }
    }

    /** `is_on()`. */
    method IsOn() returns (b: bool)
      ensures b == Value().on
    {
      b := on;
    }

    /** `get_color()`. */
    method GetColor() returns (c: Color)
      ensures c == Value().color
    {
      c := color;
    }

    /** `get_rate()`. */
    method GetRate() returns (r: ULong)
      ensures r == Value().rate
    {
      r := rate;
    }
  }
}
