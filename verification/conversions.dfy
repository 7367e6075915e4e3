/** The two standard-library conversions the LED commands use:
    `std::stoul(arg)` (which calls `strtoul(arg, &end, 10)`, section 7.22.1.4
    of ISO C) and `std::to_string(unsigned long)`.  `unsigned long` is 64 bits
    wide. */
module Conversions {
  import opened Wrappers

  const ULongMax := 0xFFFF_FFFF_FFFF_FFFF

  type ULong = x: int | 0 <= x <= ULongMax

  /** The two exceptions `std::stoul` throws: `std::invalid_argument` when no
      conversion can be performed, `std::out_of_range` when `strtoul` reports
      ERANGE. */
  datatype ConversionError = InvalidArgument | OutOfRange

  /** `isspace` in the "C" locale. */
  predicate IsSpace(c: char) {
    c == ' ' || c == '\t' || c == '\n' || c == 11 as char || c == 12 as char || c == '\r'
  }

  predicate IsDigit(c: char) {
    '0' <= c <= '9'
  }

  predicate AllDigits(s: string) {
    forall i :: 0 <= i < |s| ==> IsDigit(s[i])
  }

  function DigitValue(c: char): nat
    requires IsDigit(c)
  {
    c as int - '0' as int
  }

  function DigitChar(d: nat): (c: char)
    requires d < 10
    ensures IsDigit(c) && DigitValue(c) == d
  {
    ('0' as int + d) as char
  }

  /** The value of a string of decimal digits, most significant first. */
  function Value(digits: string): nat
    requires AllDigits(digits)
    decreases |digits|
  {
    if digits == [] then 0
    else Value(digits[..|digits| - 1]) * 10 + DigitValue(digits[|digits| - 1])
  }

  /** `s` without its leading white space. */
  function TrimSpaces(s: string): (t: string)
    ensures |t| <= |s|
    ensures t == [] || !IsSpace(t[0])
    decreases |s|
  {
    if s != [] && IsSpace(s[0]) then TrimSpaces(s[1..]) else s
  }

  /** The longest prefix of `s` made of digits. */
  function LeadingDigits(s: string): (d: string)
    ensures AllDigits(d) && |d| <= |s| && d == s[..|d|]
    ensures |d| == |s| || !IsDigit(s[|d|])
    decreases |s|
  {
    if s == [] || !IsDigit(s[0]) then [] else [s[0]] + LeadingDigits(s[1..])
  }

  /** `std::stoul(s)`: leading white space is skipped, an optional sign is
      read, then the longest run of decimal digits; what follows is ignored.
      No digit at all is an invalid argument, a magnitude above `ULONG_MAX`
      is out of range, and a negative value wraps around modulo 2^64. */
  function Stoul(s: string): Result<ULong, ConversionError> {
    var t := TrimSpaces(s);
    var negative := t != [] && t[0] == '-';
    var u := if t != [] && (t[0] == '+' || t[0] == '-') then t[1..] else t;
    var digits := LeadingDigits(u);
    if digits == [] then Err(InvalidArgument)
    else if Value(digits) > ULongMax then Err(OutOfRange)
    else Ok(if negative then Negate(Value(digits)) else Value(digits))
  }

  /** Unsigned negation, (2^64 - v) mod 2^64: what `strtoul` returns for a
      magnitude v read after a minus sign. */
  function Negate(v: ULong): (r: ULong)
    ensures (v + r) % (ULongMax + 1) == 0
  {
    if v == 0 then 0 else ULongMax + 1 - v
  }

  /** `std::to_string(n)`: the decimal digits of `n`, without leading zeros. */
  function ToDecimal(n: nat): string
    decreases n
  {
    (if n < 10 then [] else ToDecimal(n / 10)) + [DigitChar(n % 10)]
  }

  /** `to_string` writes a nonempty string of digits whose value is `n`, and
      whose first digit is not '0' unless `n` is 0. */
  lemma {:induction false} ToDecimalValue(n: nat)
    ensures ToDecimal(n) != [] && AllDigits(ToDecimal(n))
    ensures Value(ToDecimal(n)) == n
    ensures n > 0 ==> ToDecimal(n)[0] != '0'
    decreases n
  {
    var d := ToDecimal(n);
    var last := DigitChar(n % 10);
    if n < 10 {
      assert d == [last];
      assert d[..0] == [];
      assert Value(d) == Value([]) * 10 + DigitValue(last);
    } else {
      var q := ToDecimal(n / 10);
      ToDecimalValue(n / 10);
      assert d == q + [last];
      assert d[..|d| - 1] == q;
      assert d[0] == q[0];
      assert AllDigits(d);
      assert Value(d) == Value(q) * 10 + DigitValue(last);
      assert (n / 10) * 10 + n % 10 == n;
    }
  }

  /** A string of digits followed by anything that does not start with a
      digit reads as those digits. */
  lemma {:induction false} LeadingDigitsOfDigits(d: string, junk: string)
    requires AllDigits(d)
    requires junk == [] || !IsDigit(junk[0])
    ensures LeadingDigits(d + junk) == d
    decreases |d|
  {
    if d == [] {
      assert d + junk == junk;
    } else {
      assert (d + junk)[1..] == d[1..] + junk;
      LeadingDigitsOfDigits(d[1..], junk);
    }
  }

  /** A run of digits, then anything that does not start with a digit. */
  lemma {:induction false} StoulOfDigits(d: string, junk: string)
    requires d != [] && AllDigits(d)
    requires junk == [] || !IsDigit(junk[0])
    ensures Stoul(d + junk) == if Value(d) > ULongMax then Err(OutOfRange) else Ok(Value(d))
  {
    var s := d + junk;
    assert TrimSpaces(s) == s by {
      assert s[0] == d[0];
    }
    assert LeadingDigits(s) == d by {
      LeadingDigitsOfDigits(d, junk);
    }
  }

  /** A minus sign, a run of digits, then anything that does not start with a
      digit. */
  lemma {:induction false} StoulOfNegatedDigits(d: string, junk: string)
    requires d != [] && AllDigits(d)
    requires junk == [] || !IsDigit(junk[0])
    ensures Stoul("-" + (d + junk)) ==
      if Value(d) > ULongMax then Err(OutOfRange) else Ok(Negate(Value(d)))
  {
    var s := "-" + (d + junk);
    assert TrimSpaces(s) == s by {
      assert s[0] == '-';
    }
    assert LeadingDigits(s[1..]) == d by {
      assert s[1..] == d + junk;
      LeadingDigitsOfDigits(d, junk);
    }
  }

  /** `stoul` reads back what `to_string` writes, and ignores what follows
      the digits. */
  lemma {:induction false} StoulToDecimal(n: ULong, junk: string)
    requires junk == [] || !IsDigit(junk[0])
    ensures Stoul(ToDecimal(n) + junk) == Ok(n)
  {
    ToDecimalValue(n);
    StoulOfDigits(ToDecimal(n), junk);
  }

  /** A minus sign negates modulo 2^64: "-n" reads as 2^64 - n for
      0 < n <= ULONG_MAX. */
  lemma {:induction false} StoulNegative(n: ULong)
    requires n > 0
    ensures Stoul("-" + ToDecimal(n)) == Ok(ULongMax + 1 - n)
  {
    ToDecimalValue(n);
    StoulOfNegatedDigits(ToDecimal(n), []);
    assert ToDecimal(n) + [] == ToDecimal(n);
  }

  /** `stoul` finds nothing to convert exactly when, after the leading white
      space, the string starts neither with a digit nor with a sign followed
      by a digit. */
  lemma {:induction false} StoulInvalidArgument(s: string)
    ensures var t := TrimSpaces(s);
      Stoul(s) == Err(InvalidArgument) <==>
        !(t != [] && IsDigit(t[0])) && !(|t| >= 2 && (t[0] == '+' || t[0] == '-') && IsDigit(t[1]))
  {
    var t := TrimSpaces(s);
    var u := if t != [] && (t[0] == '+' || t[0] == '-') then t[1..] else t;
    assert LeadingDigits(u) == [] <==> u == [] || !IsDigit(u[0]);
  }

  /** White space, an optional sign, then no digit: "", " \tx", "fast", "-x",
      "+", "- 5" are all rejected as invalid arguments. */
  lemma {:induction false} StoulNoDigits(ws: string, sign: string, x: string)
    requires forall i :: 0 <= i < |ws| ==> IsSpace(ws[i])
    requires sign == "" || sign == "+" || sign == "-"
    requires x == [] || !IsDigit(x[0])
    requires sign == "" && x != [] ==> !IsSpace(x[0]) && x[0] != '+' && x[0] != '-'
    ensures Stoul(ws + (sign + x)) == Err(InvalidArgument)
  {
    var t := sign + x;
    TrimSpacesPrefix(ws, t);
    assert TrimSpaces(t) == t by {
      if sign != "" {
        assert t[0] == sign[0];
      } else {
        assert t == x;
      }
    }
    if sign != "" {
      assert t[1..] == x;
    } else {
      assert t == x;
    }
  }

  /** A magnitude of 2^64 or more is out of range, even with a minus sign. */
  lemma {:induction false} StoulOutOfRange(n: nat)
    requires n > ULongMax
    ensures Stoul("-" + ToDecimal(n)) == Err(OutOfRange)
    ensures Stoul(ToDecimal(n)) == Err(OutOfRange)
  {
    ToDecimalValue(n);
    assert ToDecimal(n) + [] == ToDecimal(n);
    StoulOfNegatedDigits(ToDecimal(n), []);
    StoulOfDigits(ToDecimal(n), []);
  }

  /** Leading white space is skipped. */
  lemma {:induction false} StoulSkipsSpaces(ws: string, s: string)
    requires forall i :: 0 <= i < |ws| ==> IsSpace(ws[i])
    ensures Stoul(ws + s) == Stoul(s)
  {
    TrimSpacesPrefix(ws, s);
  }

  lemma {:induction false} TrimSpacesPrefix(ws: string, s: string)
    requires forall i :: 0 <= i < |ws| ==> IsSpace(ws[i])
    ensures TrimSpaces(ws + s) == TrimSpaces(s)
    decreases |ws|
  {
    if ws == [] {
      assert ws + s == s;
    } else {
      assert (ws + s)[0] == ws[0];
      assert (ws + s)[1..] == ws[1..] + s;
      TrimSpacesPrefix(ws[1..], s);
    }
  }
}
