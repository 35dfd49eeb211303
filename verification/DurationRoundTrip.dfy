/** Printing a duration and reading it back. */
module DurationRoundTrip {
  import opened Wrappers
  import opened Decimal
  import opened Binary64
  import opened NanosecondLoss
  import opened Duration
  import opened DurationText

  function Positive(n: int): nat {
    if n > 0 then n else 0
  }

  // ----- the printed fields -----

  /** A number as it is printed before its unit: not at all unless positive. */
  function Shown(n: int): string {
    if n > 0 then Digits(n) else ""
  }

  lemma ShownLaw(n: int, unit: char)
    ensures Unit(n, unit) == Field(Shown(n), unit)
    ensures AllDigits(Shown(n)) && Value(Shown(n)) == Positive(n)
  {
    if n > 0 {
      DigitsLaw(n);
    }
  }

  lemma DateFields(d: Duration)
    ensures DatePart(d) == DateText(Shown(Div(d.months, 12)), Shown(Mod(d.months, 12)), Shown(d.days))
  {
    ShownLaw(Div(d.months, 12), 'Y');
    ShownLaw(Mod(d.months, 12), 'M');
    ShownLaw(d.days, 'D');
  }

  lemma DateRoundTrip(d: Duration)
    requires d.Fits()
    ensures ParseDate(DatePart(d)) == Ok((Positive(d.months), Positive(d.days)))
    ensures Plain(DatePart(d))
  {
    var y, m := Div(d.months, 12), Mod(d.months, 12);
    DateFields(d);
    ShownLaw(y, 'Y');
    ShownLaw(m, 'M');
    ShownLaw(d.days, 'D');
    MonthsAddUp(d.months);
    DateInRange(Positive(y), Positive(m), Positive(d.days));
    DateFor(DatePart(d), Shown(y), Shown(m), Shown(d.days), Ok((Positive(d.months), Positive(d.days))));
  }

  lemma MonthsAddUp(n: int)
    ensures 12 * Positive(Div(n, 12)) + Positive(Mod(n, 12)) == Positive(n)
  {
  }

  /** Trimming zeros never shortens the printed seconds. */
  lemma FormatSecondsKeepsZeros(seconds: nat, nanosOfSecond: nat)
    requires nanosOfSecond > 0
    ensures FormatSeconds(seconds, nanosOfSecond) == Digits(seconds) + "." + PadLeft(nanosOfSecond, 9) + "S"
  {
  }

  /** The number printed before the S: with nine digits behind the point, or none; empty for zero. */
  function SecondsText(seconds: nat, nanosOfSecond: nat): string {
    if seconds == 0 && nanosOfSecond == 0 then ""
    else if nanosOfSecond == 0 then Digits(seconds)
    else Digits(seconds) + "." + PadLeft(nanosOfSecond, 9)
  }

  lemma SecondsTextShape(seconds: nat, nanosOfSecond: nat)
    ensures SecondsPart(seconds, nanosOfSecond) == Field(SecondsText(seconds, nanosOfSecond), 'S')
    ensures AllRun(SecondsText(seconds, nanosOfSecond))
  {
    DigitsLaw(seconds);
    if nanosOfSecond > 0 {
      FormatSecondsKeepsZeros(seconds, nanosOfSecond);
      PadLeftLaw(nanosOfSecond, 9);
    }
  }

  /** A clock as it is taken apart from a number of nanoseconds that is not negative. */
  predicate IsClock(c: Clock) {
    0 <= c.hours && 0 <= c.minutes < 60 && 0 <= c.seconds < 60 && 0 <= c.nanos < 1_000_000_000
  }

  lemma ClockFields(c: Clock)
    requires IsClock(c)
    ensures ClockText(c) == TimeText(Shown(c.hours), Shown(c.minutes), SecondsText(c.seconds, c.nanos))
  {
    ShownLaw(c.hours, 'H');
    ShownLaw(c.minutes, 'M');
    SecondsTextShape(c.seconds, c.nanos);
  }

  /** Hours, minutes, seconds and nanoseconds put together again. */
  lemma ClockAddsUp(nanos: nat)
    ensures var c := ClockOf(nanos);
            && IsClock(c) && c.hours <= nanos
            && c.hours * 3_600_000_000_000 + c.minutes * 60_000_000_000 + c.seconds * 1_000_000_000 + c.nanos == nanos
  {
    TotalAddsUp(Div(nanos, 1_000_000_000));
  }

  lemma TotalAddsUp(total: nat)
    ensures var h, m, s := Div(total, 3600), Div(Mod(total, 3600), 60), Mod(total, 60);
            h * 3600 + m * 60 + s == total && 0 <= m < 60 && 0 <= s < 60 && 0 <= h <= total
  {
    var h, rest := total / 3600, total % 3600;
    var m, s := rest / 60, rest % 60;
    assert total == 60 * (60 * h + m) + s;
  }

  /**
   The text that stands for a duration without negative fields: months below twelve behind the years,
   minutes and seconds below sixty, a T exactly before a time, and "P0D" for nothing at all.
   */
  lemma PrintedText(d: Duration, y: nat, m: nat, h: nat, mi: nat, s: nat, ns: nat)
    requires d.days >= 0 && d.months == 12 * y + m && m < 12
    requires mi < 60 && s < 60 && ns < 1_000_000_000
    requires d.nanos == 3_600_000_000_000 * h + 60_000_000_000 * mi + 1_000_000_000 * s + ns
    ensures var date := DateText(Shown(y), Shown(m), Shown(d.days));
            ToString(d) == if d.nanos > 0 then "P" + date + "T" + TimeText(Shown(h), Shown(mi), SecondsText(s, ns))
                           else if date == "" then "P0D" else "P" + date
  {
    DateFieldsOf(d, y, m);
    if d.nanos > 0 {
      PrintedWithTime(d);
      ClockUnique(h, mi, s, ns);
      ClockFields(ClockOf(d.nanos));
    } else {
      PrintedWithoutTime(d);
    }
  }

  lemma DateFieldsOf(d: Duration, y: nat, m: nat)
    requires d.months == 12 * y + m && m < 12
    ensures DatePart(d) == DateText(Shown(y), Shown(m), Shown(d.days))
  {
    DateFields(d);
    MonthsUnique(y, m);
  }

  lemma MonthsUnique(y: nat, m: nat)
    requires m < 12
    ensures Div(12 * y + m, 12) == y && Mod(12 * y + m, 12) == m
  {
  }

  /** There is one way to take nanoseconds apart. */
  lemma ClockUnique(h: nat, mi: nat, s: nat, ns: nat)
    requires mi < 60 && s < 60 && ns < 1_000_000_000
    ensures ClockOf(3_600_000_000_000 * h + 60_000_000_000 * mi + 1_000_000_000 * s + ns) == Clock(h, mi, s, ns)
  {
    var total := 3600 * h + 60 * mi + s;
    var n := 1_000_000_000 * total + ns;
    assert n / 1_000_000_000 == total && n % 1_000_000_000 == ns;
    TotalUnique(h, mi, s);
  }

  lemma TotalUnique(h: nat, mi: nat, s: nat)
    requires mi < 60 && s < 60
    ensures var total := 3600 * h + 60 * mi + s;
            total / 3600 == h && total % 3600 / 60 == mi && total % 60 == s
  {
    Hours(h, 60 * mi + s);
    Minutes(mi, s);
    Minutes(60 * h + mi, s);
    assert 3600 * h + 60 * mi + s == 60 * (60 * h + mi) + s;
  }

  lemma Hours(q: nat, r: nat)
    requires r < 3600
    ensures (3600 * q + r) / 3600 == q && (3600 * q + r) % 3600 == r
  {
  }

  lemma Minutes(q: nat, r: nat)
    requires r < 60
    ensures (60 * q + r) / 60 == q && (60 * q + r) % 60 == r
  {
  }

  // ----- reading it back -----

  /** What is printed for the seconds of a clock, as a reader of decimals is given it. */
  function SecondsBack(p: SecondsReader, seconds: nat, nanos: nat): int {
    if nanos > 0 then p(seconds * 1_000_000_000 + nanos, 9) else if seconds > 0 then p(seconds, 0) else 0
  }

  lemma SecondsTextRead(p: SecondsReader, seconds: nat, nanosOfSecond: nat)
    requires nanosOfSecond < 1_000_000_000
    ensures SecondsMeaning(p, SecondsText(seconds, nanosOfSecond)) == Ok(SecondsBack(p, seconds, nanosOfSecond))
  {
    if nanosOfSecond > 0 {
      DecimalOfSeconds(seconds, nanosOfSecond);
    } else if seconds > 0 {
      DigitsLaw(seconds);
      DecimalOfDigits(Digits(seconds));
    }
  }

  lemma DecimalOfSeconds(seconds: nat, nanosOfSecond: nat)
    requires nanosOfSecond < 1_000_000_000
    ensures DecimalOf(Digits(seconds) + "." + PadLeft(nanosOfSecond, 9))
            == Some((seconds * 1_000_000_000 + nanosOfSecond, 9))
  {
    var w, f := Digits(seconds), PadLeft(nanosOfSecond, 9);
    DigitsLaw(seconds);
    Pow10Values();
    PadLeftLaw(nanosOfSecond, 9);
    DecimalOfParts(w, f);
    ValueConcat(w, f);
  }

  function ClockBack(p: SecondsReader, c: Clock): int
    requires IsClock(c)
  {
    TotalNanos(c.hours, c.minutes, SecondsBack(p, c.seconds, c.nanos))
  }

  lemma ClockRoundTrip(p: SecondsReader, c: Clock)
    requires IsClock(c) && c.hours <= LONG_MAX
    ensures Plain(ClockText(c)) && ParseTime(p, ClockText(c)) == Ok(ClockBack(p, c))
  {
    ClockFields(c);
    ShownLaw(c.hours, 'H');
    ShownLaw(c.minutes, 'M');
    SecondsTextShape(c.seconds, c.nanos);
    SecondsTextRead(p, c.seconds, c.nanos);
    TimeInRange(p, ClockText(c), Shown(c.hours), Shown(c.minutes), SecondsText(c.seconds, c.nanos),
                c.hours, c.minutes, SecondsBack(p, c.seconds, c.nanos));
  }

  /** The duration that comes back: a negative field prints as nothing, and reads as zero. */
  function Readable(p: SecondsReader, d: Duration): Duration {
    ClockAddsUp(Positive(d.nanos));
    Duration(Positive(d.months), Positive(d.days), ClockBack(p, ClockOf(Positive(d.nanos))))
  }

  /** What every printed duration reads back as, whatever is done with decimals. */
  lemma RoundTrip(p: SecondsReader, d: Duration)
    requires d.Fits()
    ensures Parsed(p, ToString(d)) == Ok(Readable(p, d))
  {
    if d.nanos > 0 {
      RoundTripWithTime(p, d);
    } else {
      RoundTripWithoutTime(p, d);
    }
  }

  lemma RoundTripWithTime(p: SecondsReader, d: Duration)
    requires d.Fits() && d.nanos > 0
    ensures Parsed(p, ToString(d)) == Ok(Readable(p, d))
  {
    var date, c, r := DatePart(d), ClockOf(d.nanos), Readable(p, d);
    DateRoundTrip(d);
    ClockAddsUp(d.nanos);
    ClockRoundTrip(p, c);
    WithTime(p, date, ClockText(c), r);
    PrintedWithTime(d);
  }

  lemma RoundTripWithoutTime(p: SecondsReader, d: Duration)
    requires d.Fits() && d.nanos <= 0
    ensures Parsed(p, ToString(d)) == Ok(Readable(p, d))
  {
    ReadableWithoutTime(p, d);
    PrintedWithoutTime(d);
    DateOnly(p, d, ToString(d), Readable(p, d));
  }

  lemma ReadableWithoutTime(p: SecondsReader, d: Duration)
    requires d.nanos <= 0
    ensures Readable(p, d) == Duration(Positive(d.months), Positive(d.days), 0)
  {
    ZeroClock();
  }

  lemma ZeroClock()
    ensures ClockOf(0) == Clock(0, 0, 0, 0)
  {
  }

  lemma DateOnly(p: SecondsReader, d: Duration, text: string, r: Duration)
    requires d.Fits() && r == Duration(Positive(d.months), Positive(d.days), 0)
    requires text == if d.nanos == 0 && DatePart(d) == "" then "P0D" else "P" + DatePart(d)
    ensures Parsed(p, text) == Ok(r)
  {
    DateRoundTrip(d);
    if d.nanos == 0 && DatePart(d) == "" {
      NoDate(d);
      assert "P0D" == "P" + ("0" + "D");
      NoDays(p, "0");
    } else {
      ReadsDate(p, DatePart(d), Ok((r.months, r.days)));
    }
  }

  lemma NoDate(d: Duration)
    requires d.Fits() && DatePart(d) == ""
    ensures Positive(d.months) == 0 && Positive(d.days) == 0
  {
    assert Unit(Mod(d.months, 12), 'M') == "" && Unit(d.days, 'D') == "" && Unit(Div(d.months, 12), 'Y') == "";
  }

  lemma WithTime(p: SecondsReader, date: string, time: string, r: Duration)
    requires Plain(date) && ParseDate(date) == Ok((r.months, r.days))
    requires Plain(time) && ParseTime(p, time) == Ok(r.nanos)
    ensures Parsed(p, "P" + date + "T" + time) == Ok(r)
  {
    assert "P" + date + "T" + time + [] == "P" + date + "T" + time;
    ReadsBoth(p, date, time, [], Ok((r.months, r.days)), Ok(r.nanos));
  }

  lemma NoDays(p: SecondsReader, digits: string)
    requires AllDigits(digits) && digits != [] && Value(digits) == 0
    ensures Parsed(p, "P" + (digits + "D")) == Ok(Duration(0, 0, 0))
  {
    NoDaysDate(digits);
    ReadsDate(p, digits + "D", Ok((0, 0)));
  }

  lemma NoDaysDate(digits: string)
    requires AllDigits(digits) && digits != [] && Value(digits) == 0
    ensures Plain(digits + "D") && ParseDate(digits + "D") == Ok((0, 0))
  {
    DateLaw("", "", digits);
    assert DateText("", "", digits) == digits + "D";
  }

  lemma PrintedWithTime(d: Duration)
    requires d.nanos > 0
    ensures ToString(d) == "P" + DatePart(d) + "T" + ClockText(ClockOf(d.nanos))
  {
  }

  lemma PrintedWithoutTime(d: Duration)
    requires d.nanos <= 0
    ensures ToString(d) == if d.nanos == 0 && DatePart(d) == "" then "P0D" else "P" + DatePart(d)
  {
    assert TimePart(d) == "";
    assert "P" + DatePart(d) + "" == "P" + DatePart(d);
  }

  // ----- the loss in the double arithmetic -----

  /** Seconds and nanoseconds of a minute come back, or one nanosecond less. */
  lemma SecondsBackLaw(round: Rounding, overflow: real -> int, seconds: nat, nanos: nat)
    requires CorrectlyRounded(round) && seconds < 60 && nanos < 1_000_000_000
    ensures var n := seconds * 1_000_000_000 + nanos;
            SecondsBack(DoubleReader(round, overflow), seconds, nanos) == if Survives(round, n) then n else n - 1
  {
    Pow10Values();
    if nanos > 0 {
      DecimalRead(round, overflow, seconds * 1_000_000_000 + nanos, 9);
    } else if seconds > 0 {
      DecimalRead(round, overflow, seconds, 0);
    }
  }

  lemma TotalOfClock(c: Clock, r: int)
    requires IsClock(c) && 0 <= r
    requires c.hours * 3_600_000_000_000 + c.minutes * 60_000_000_000 + r <= LONG_MAX
    ensures TotalNanos(c.hours, c.minutes, r) == c.hours * 3_600_000_000_000 + c.minutes * 60_000_000_000 + r
  {
  }

  lemma MinuteOfClock(n: nat)
    ensures var c := ClockOf(n); c.seconds * 1_000_000_000 + c.nanos == n % 60_000_000_000
  {
    ClockAddsUp(n);
    var c := ClockOf(n);
    Remainder(n, 60 * c.hours + c.minutes, c.seconds * 1_000_000_000 + c.nanos);
  }

  lemma Remainder(n: int, q: int, r: nat)
    requires n == 60_000_000_000 * q + r && r < 60_000_000_000
    ensures n % 60_000_000_000 == r
  {
  }

  lemma ClockBackLaw(round: Rounding, overflow: real -> int, n: nat)
    requires CorrectlyRounded(round) && n <= LONG_MAX
    ensures var c := ClockOf(n);
            IsClock(c) && ClockBack(DoubleReader(round, overflow), c) == if Survives(round, n % 60_000_000_000) then n else n - 1
  {
    var c := ClockOf(n);
    ClockAddsUp(n);
    MinuteOfClock(n);
    var m := c.seconds * 1_000_000_000 + c.nanos;
    SecondsBackLaw(round, overflow, c.seconds, c.nanos);
    TotalOfClock(c, if Survives(round, m) then m else m - 1);
  }

  lemma ReadableLaw(round: Rounding, overflow: real -> int, d: Duration)
    requires CorrectlyRounded(round) && d.Fits()
    ensures var n := Positive(d.nanos);
            Readable(DoubleReader(round, overflow), d)
            == Duration(Positive(d.months), Positive(d.days), if Survives(round, n % 60_000_000_000) then n else n - 1)
  {
    ClockBackLaw(round, overflow, Positive(d.nanos));
  }

  /** Exactly the durations that survive printing and reading. */
  lemma RoundTripIff(round: Rounding, overflow: real -> int, d: Duration)
    requires CorrectlyRounded(round) && d.Fits()
    ensures Parsed(DoubleReader(round, overflow), ToString(d)) == Ok(d) <==>
            d.months >= 0 && d.days >= 0 && d.nanos >= 0 && Survives(round, d.nanos % 60_000_000_000)
  {
    var p := DoubleReader(round, overflow);
    RoundTrip(p, d);
    ReadableIff(round, overflow, d);
    assert Parsed(p, ToString(d)) == Ok(Readable(p, d));
  }

  lemma ReadableIff(round: Rounding, overflow: real -> int, d: Duration)
    requires CorrectlyRounded(round) && d.Fits()
    ensures Readable(DoubleReader(round, overflow), d) == d <==>
            d.months >= 0 && d.days >= 0 && d.nanos >= 0 && Survives(round, d.nanos % 60_000_000_000)
  {
    ReadableLaw(round, overflow, d);
  }

  /** At most one nanosecond less, and none in whole seconds. */
  predicate WithinOne(d: Duration, r: Result<Duration, Error>) {
    && r.Ok? && r.value.months == d.months && r.value.days == d.days
    && (r.value.nanos == d.nanos || r.value.nanos == d.nanos - 1)
    && (d.nanos % 1_000_000_000 == 0 ==> r.value.nanos == d.nanos)
  }

  /** For fields that are not negative the loss is at most one nanosecond, and none in whole seconds. */
  lemma RoundTripWithinOne(round: Rounding, overflow: real -> int, d: Duration)
    requires CorrectlyRounded(round) && d.Fits() && d.months >= 0 && d.days >= 0 && d.nanos >= 0
    ensures WithinOne(d, Parsed(DoubleReader(round, overflow), ToString(d)))
  {
    var p := DoubleReader(round, overflow);
    RoundTrip(p, d);
    ReadableWithinOne(round, overflow, d);
    assert Parsed(p, ToString(d)) == Ok(Readable(p, d));
  }

  lemma ReadableWithinOne(round: Rounding, overflow: real -> int, d: Duration)
    requires CorrectlyRounded(round) && d.Fits() && d.months >= 0 && d.days >= 0 && d.nanos >= 0
    ensures WithinOne(d, Ok(Readable(DoubleReader(round, overflow), d)))
  {
    ReadableLaw(round, overflow, d);
    LossWithinOne(round, d, Readable(DoubleReader(round, overflow), d));
  }

  lemma LossWithinOne(round: Rounding, d: Duration, r: Duration)
    requires d.nanos >= 0 && r.months == d.months && r.days == d.days
    requires r.nanos == if Survives(round, d.nanos % 60_000_000_000) then d.nanos else d.nanos - 1
    ensures WithinOne(d, Ok(r))
  {
    if d.nanos % 1_000_000_000 == 0 {
      WholeInMinute(d.nanos);
    }
  }

  lemma WholeInMinute(n: nat)
    requires n % 1_000_000_000 == 0
    ensures (n % 60_000_000_000) % 1_000_000_000 == 0
  {
    assert n % 60_000_000_000 == 1_000_000_000 * (n / 1_000_000_000 - 60 * (n / 60_000_000_000));
  }

  // ----- the loss with doubles of the IEEE 754 format -----

  /** What is kept of a duration: no negative field, and perhaps one nanosecond less. */
  function Kept(d: Duration): Duration {
    var n := Positive(d.nanos);
    Duration(Positive(d.months), Positive(d.days), if LosesOne(n % 60_000_000_000) then n - 1 else n)
  }

  /**
   What every duration reads back as, and which survive: those without negative fields whose
   nanoseconds within the minute pass a test on whole numbers.
   */
  lemma RoundTripExactly(overflow: real -> int, d: Duration)
    requires d.Fits()
    ensures Parsed(DoubleReader(Round53, overflow), ToString(d)) == Ok(Kept(d))
    ensures Kept(d) == d <==> d.months >= 0 && d.days >= 0 && d.nanos >= 0 && !LosesOne(d.nanos % 60_000_000_000)
  {
    var p := DoubleReader(Round53, overflow);
    RoundTrip(p, d);
    KeptIsReadable(overflow, d);
    KeptIff(d);
  }

  lemma KeptIff(d: Duration)
    ensures Kept(d) == d <==> d.months >= 0 && d.days >= 0 && d.nanos >= 0 && !LosesOne(d.nanos % 60_000_000_000)
  {
  }

  lemma KeptIsReadable(overflow: real -> int, d: Duration)
    requires d.Fits()
    ensures Readable(DoubleReader(Round53, overflow), d) == Kept(d)
  {
    Round53IsCorrect();
    ReadableLaw(Round53, overflow, d);
    SurvivesIff(Positive(d.nanos) % 60_000_000_000);
  }

  /** A duration of 4.1 seconds does not survive, whatever its months and days are. */
  lemma FourPointOneSeconds(overflow: real -> int, d: Duration)
    requires d.Fits() && d.months >= 0 && d.days >= 0 && d.nanos == 4_100_000_000
    ensures Parsed(DoubleReader(Round53, overflow), ToString(d)) == Ok(Duration(d.months, d.days, 4_099_999_999))
  {
    RoundTripExactly(overflow, d);
    FourPointOneKept(d);
  }

  lemma FourPointOneKept(d: Duration)
    requires d.months >= 0 && d.days >= 0 && d.nanos == 4_100_000_000
    ensures Kept(d) == Duration(d.months, d.days, 4_099_999_999)
  {
    FourPointOneLost();
  }

  // ----- wrap-around and weeks -----

  /** Wrapping gives the number of the width that is congruent to the exact one. */
  lemma Wrap32Law(x: int)
    ensures -0x8000_0000 <= Wrap32(x) < 0x8000_0000 && (x - Wrap32(x)) % 0x1_0000_0000 == 0
  {
  }

  lemma Wrap64Law(x: int)
    ensures -0x8000_0000_0000_0000 <= Wrap64(x) < 0x8000_0000_0000_0000
    ensures (x - Wrap64(x)) % 0x1_0000_0000_0000_0000 == 0
  {
  }

  /**
   The week form, with any digits and perhaps a line feed behind it, is seven days a week,
   wrapped to 32 bits, unless the number of weeks is too large.
   */
  lemma Weeks(p: SecondsReader, digits: string, end: string)
    requires AllDigits(digits) && digits != [] && end in {"", "\n"}
    ensures Parsed(p, "P" + digits + "W" + end)
            == if Value(digits) <= INT_MAX then Ok(Duration(0, Wrap32(Value(digits) * 7), 0)) else Err(Overflow)
  {
    WeekDigitsOf(digits, end);
  }

  lemma WeekDigitsOf(digits: string, end: string)
    requires AllDigits(digits) && digits != [] && end in {"", "\n"}
    ensures WeekDigits("P" + digits + "W" + end) == Some(digits)
  {
    var body := "P" + digits + "W";
    var s := body + end;
    assert body[1..|body| - 1] == digits;
    assert (if s[|s| - 1] == '\n' then s[..|s| - 1] else s) == body;
  }
}
