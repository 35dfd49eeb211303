/**
 ISO 8601 durations (collected grammar in Appendix A of RFC 3339) of months, days and
 nanoseconds: printing and reading, with the widths of the fields and the double-precision
 step of the reader made explicit. Digits are the ASCII ones, and the decimal point is a point.
 */
module Duration {
  import opened Wrappers
  import opened Decimal
  import opened Binary64

  const INT_MAX := 0x7FFF_FFFF
  const LONG_MAX := 0x7FFF_FFFF_FFFF_FFFF

  datatype Duration = Duration(months: int, days: int, nanos: int)
  {
    /** Two 32-bit fields and a 64-bit one. */
    predicate Fits() {
      -INT_MAX - 1 <= months <= INT_MAX && -INT_MAX - 1 <= days <= INT_MAX && -LONG_MAX - 1 <= nanos <= LONG_MAX
    }
  }

  /** Nanoseconds read for a decimal number of seconds, given as its digits and its places behind the point. */
  type SecondsReader = (nat, nat) -> int

  datatype Error = BadFormat | Overflow

  // ----- machine arithmetic -----

  /** Division and remainder round towards zero. */
  function Div(a: int, b: nat): int
    requires b > 0
  {
    if a >= 0 then a / b else -((-a) / b)
  }

  function Mod(a: int, b: nat): (r: int)
    requires b > 0
    ensures if a >= 0 then 0 <= r < b else 0 <= -r < b
  {
    if a >= 0 then a % b else -((-a) % b)
  }

  /** Two's complement: unchanged within range, otherwise wrapped around. */
  function Wrap32(x: int): int {
    if -0x8000_0000 <= x <= 0x7FFF_FFFF then x else (x + 0x8000_0000) % 0x1_0000_0000 - 0x8000_0000
  }

  function Wrap64(x: int): int {
    if -0x8000_0000_0000_0000 <= x <= 0x7FFF_FFFF_FFFF_FFFF then x
    else (x + 0x8000_0000_0000_0000) % 0x1_0000_0000_0000_0000 - 0x8000_0000_0000_0000
  }

  // ----- printing -----

  function Unit(n: int, unit: char): string {
    if n > 0 then Digits(n) + [unit] else ""
  }

  /** The trailing zeros that TrimEnd is after stand before the S, so it removes nothing. */
  function FormatSeconds(seconds: nat, nanosOfSecond: nat): string {
    if nanosOfSecond == 0 then Digits(seconds) + "S"
    else TrimEnd(Digits(seconds) + "." + PadLeft(nanosOfSecond, 9) + "S")
  }

  function DatePart(d: Duration): string {
    Unit(Div(d.months, 12), 'Y') + Unit(Mod(d.months, 12), 'M') + Unit(d.days, 'D')
  }

  datatype Clock = Clock(hours: int, minutes: int, seconds: int, nanos: int)

  function ClockOf(nanos: int): Clock {
    var total := Div(nanos, 1_000_000_000);
    Clock(Div(total, 3600), Div(Mod(total, 3600), 60), Mod(total, 60), Mod(nanos, 1_000_000_000))
  }

  function SecondsPart(seconds: int, nanos: int): string
    requires seconds > 0 || nanos > 0 ==> seconds >= 0 && nanos >= 0
  {
    if seconds > 0 || nanos > 0 then FormatSeconds(seconds, nanos) else ""
  }

  function ClockText(c: Clock): string
    requires c.seconds > 0 || c.nanos > 0 ==> c.seconds >= 0 && c.nanos >= 0
  {
    Unit(c.hours, 'H') + Unit(c.minutes, 'M') + SecondsPart(c.seconds, c.nanos)
  }

  function TimePart(d: Duration): string {
    ClockText(ClockOf(d.nanos))
  }

  function ToString(d: Duration): string {
    var date := DatePart(d);
    if d.nanos == 0 then if date != "" then "P" + date else "P0D"
    else
      var time := TimePart(d);
      "P" + date + if time != "" then "T" + time else ""
  }

  // ----- reading -----

  /** `(\d+)U`, or `([\d.]+)U`, matches from i to the unit at e. */
  predicate IsMatch(s: string, unit: char, points: bool, i: nat, e: nat) {
    i < e < |s| && (forall j | i <= j < e :: InRun(s[j], points)) && s[e] == unit
  }

  /** The leftmost match, as a regular expression search finds it; its end is forced. */
  function Find(s: string, unit: char, points: bool, from: nat := 0): (m: Option<(nat, nat)>)
    requires from <= |s| && !InRun(unit, points)
    requires 0 < from < |s| ==> !InRun(s[from - 1], points) || !InRun(s[from], points)
    ensures m.Some? ==> from <= m.value.0 && IsMatch(s, unit, points, m.value.0, m.value.1)
    ensures forall i, e | IsMatch(s, unit, points, i, e) && from <= i :: m.Some? && m.value.0 <= i
    decreases |s| - from
  {
    if from == |s| then None
    else
      var e := RunEnd(s, from, points);
      if e == from then Find(s, unit, points, from + 1)
      else if e < |s| && s[e] == unit then Some((from, e))
      else Find(s, unit, points, e)
  }

  /** The matched digits as a number of at most `max`, zero if there is no match. */
  function ReadUnit(s: string, unit: char, max: int): Result<nat, Error>
    requires !IsDigit(unit)
  {
    match Find(s, unit, false)
    case None => Ok(0)
    case Some((i, e)) =>
      var n := Value(s[i..e]);
      if n <= max then Ok(n) else Err(Overflow)
  }

  /** Digits with at most one point among them, as a number and its places; None if malformed. */
  function DecimalOf(s: string): Option<(nat, nat)> {
    var dot := IndexOf(s, '.');
    var whole := s[..dot];
    var fraction := if dot == |s| then "" else s[dot + 1..];
    if AllDigits(whole + fraction) && whole + fraction != "" then Some((Value(whole + fraction), |fraction|)) else None
  }

  /** A number moved `k` places behind the point. */
  function Scaled(x: real, k: nat): real
    decreases k
  {
    if k == 0 then x else Scaled(x, k - 1) / 10.0
  }

  /**
   The reader of the source: parse a double, multiply by a thousand million, cast to long.
   `overflow` is what the cast gives beyond the range of long, which the language leaves open.
   */
  function DoubleReader(round: Rounding, overflow: real -> int): SecondsReader {
    (digits: nat, places: nat) =>
      var product := round(round(Scaled(digits as real, places)) * 1_000_000_000.0);
      if product.Floor <= LONG_MAX then product.Floor else overflow(product)
  }

  function SecondsOf(p: SecondsReader, text: string): Result<int, Error> {
    match DecimalOf(text)
    case None => Err(BadFormat)
    case Some((digits, places)) => Ok(p(digits, places))
  }

  function ReadSeconds(p: SecondsReader, s: string): Result<int, Error> {
    match Find(s, 'S', true)
    case None => Ok(0)
    case Some((i, e)) => SecondsOf(p, s[i..e])
  }

  /** `^P(\d+)W$`, where the end of the text may be followed by a line feed. */
  function WeekDigits(s: string): Option<string> {
    var body := if s != [] && s[|s| - 1] == '\n' then s[..|s| - 1] else s;
    if |body| > 2 && body[0] == 'P' && body[|body| - 1] == 'W' && AllDigits(body[1..|body| - 1])
    then Some(body[1..|body| - 1]) else None
  }

  function ParseWeeks(digits: string): Result<Duration, Error>
    requires AllDigits(digits)
  {
    var weeks := Value(digits);
    if weeks <= INT_MAX then Ok(Duration(0, Wrap32(weeks * 7), 0)) else Err(Overflow)
  }

  function ParseDate(s: string): Result<(int, int), Error> {
    var years, months, days := ReadUnit(s, 'Y', INT_MAX), ReadUnit(s, 'M', INT_MAX), ReadUnit(s, 'D', INT_MAX);
    if years.Err? || months.Err? || days.Err? then Err(Overflow)
    else Ok((Wrap32(Wrap32(years.value * 12) + months.value), days.value))
  }

  function ParseTime(p: SecondsReader, s: string): Result<int, Error> {
    var hours, minutes, seconds := ReadUnit(s, 'H', LONG_MAX), ReadUnit(s, 'M', LONG_MAX), ReadSeconds(p, s);
    if hours.Err? || minutes.Err? then Err(Overflow)
    else if seconds.Err? then Err(seconds.error)
    else Ok(TotalNanos(hours.value, minutes.value, seconds.value))
  }

  function TotalNanos(hours: nat, minutes: nat, nanos: int): int {
    Wrap64(Wrap64(Wrap64(hours * 3_600_000_000_000) + Wrap64(minutes * 60_000_000_000)) + nanos)
  }

  /** The text between the P and the first T, and between that and the next T. */
  function SplitAtT(s: string): (string, string)
    requires s != []
  {
    var t := IndexOf(s, 'T', 1);
    if t == |s| then (s[1..], "")
    else (s[1..t], s[t + 1..IndexOf(s, 'T', t + 1)])
  }

  function Parsed(p: SecondsReader, s: string): Result<Duration, Error> {
    if s == [] || s[0] != 'P' then Err(BadFormat)
    else if WeekDigits(s).Some? then ParseWeeks(WeekDigits(s).value)
    else
      var (datePart, timePart) := SplitAtT(s);
      Joined(ParseDate(datePart), ParseTime(p, timePart))
  }

  function Joined(date: Result<(int, int), Error>, time: Result<int, Error>): Result<Duration, Error> {
    if date.Err? then Err(date.error)
    else if time.Err? then Err(time.error)
    else Ok(Duration(date.value.0, date.value.1, time.value))
  }

  // ----- reading step by step, as the fields are found -----

  method ReadDate(datePart: string) returns (r: Result<(int, int), Error>)
    ensures r == ParseDate(datePart)
  {
    var months, days := 0, 0;
    if datePart != "" {
      var years := ReadUnit(datePart, 'Y', INT_MAX);
      if years.Err? {
        return Err(years.error);
      }
      months := Wrap32(years.value * 12);
      var more := ReadUnit(datePart, 'M', INT_MAX);
      if more.Err? {
        return Err(more.error);
      }
      months := Wrap32(months + more.value);
      var read := ReadUnit(datePart, 'D', INT_MAX);
      if read.Err? {
        return Err(read.error);
      }
      days := read.value;
    }
    return Ok((months, days));
  }

  method ReadTime(p: SecondsReader, timePart: string) returns (r: Result<int, Error>)
    ensures r == ParseTime(p, timePart)
  {
    var nanos := 0;
    if timePart != "" {
      var hours := ReadUnit(timePart, 'H', LONG_MAX);
      if hours.Err? {
        return Err(hours.error);
      }
      nanos := Wrap64(hours.value * 3_600_000_000_000);
      var minutes := ReadUnit(timePart, 'M', LONG_MAX);
      if minutes.Err? {
        return Err(minutes.error);
      }
      nanos := Wrap64(nanos + Wrap64(minutes.value * 60_000_000_000));
      var seconds := ReadSeconds(p, timePart);
      if seconds.Err? {
        return Err(seconds.error);
      }
      nanos := Wrap64(nanos + seconds.value);
    }
    return Ok(nanos);
  }

  method Parse(p: SecondsReader, s: string) returns (r: Result<Duration, Error>)
    ensures r == Parsed(p, s)
  {
    if s == [] || s[0] != 'P' {
      return Err(BadFormat);
    }
    var week := WeekDigits(s);
    if week.Some? {
      return ParseWeeks(week.value);
    }
    var (datePart, timePart) := SplitAtT(s);
    var date := ReadDate(datePart);
    if date.Err? {
      return Err(date.error);
    }
    var time := ReadTime(p, timePart);
    if time.Err? {
      return Err(time.error);
    }
    return Ok(Duration(date.value.0, date.value.1, time.value));
  }
}
