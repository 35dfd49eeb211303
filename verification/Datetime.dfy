/**
 Datetimes with nanoseconds: built from epoch seconds, printed with nine trimmed digits and
 read back. The platform's calendar text is a parameter.
 */
module Datetime {
  import opened Wrappers
  import opened Decimal
  import opened Fractions

  const MIN_SECONDS := -62_135_596_800
  const MAX_SECONDS := 253_402_300_799
  const MAX_TICKS := 3_155_378_975_999_999_999

  /**
   The platform's date and time: `format` prints the given second, counted from year one,
   without fraction; `parse` gives ticks of 100 nanoseconds from year one, or None where it throws.
   */
  datatype Calendar = Calendar(format: nat -> string, parse: string -> Option<nat>)

  /** What is assumed of the calendar: it reads exactly what it prints, with up to seven digits of fraction. */
  ghost predicate Exact(cal: Calendar) {
    && (forall s: nat {:trigger cal.format(s)} | s <= MAX_SECONDS - MIN_SECONDS ::
          '.' !in cal.format(s) && cal.parse(cal.format(s)) == Some(s * 10_000_000))
    && (forall s: nat, f: string {:trigger ReadsFraction(cal, s, f)}
          | s <= MAX_SECONDS - MIN_SECONDS && AllDigits(f) && 1 <= |f| <= 7 :: ReadsFraction(cal, s, f))
  }

  predicate ReadsFraction(cal: Calendar, s: nat, f: string)
    requires AllDigits(f) && |f| <= 7
  {
    cal.parse(cal.format(s) + "." + f) == Some(s * 10_000_000 + Value(PadRight(f, 7)))
  }

  datatype Datetime = Datetime(seconds: int, subsecNanos: nat)
  {
    /** Ticks since year one of the DateTime kept beside the two fields. */
    function Ticks(): int {
      (seconds - MIN_SECONDS) * 10_000_000 + subsecNanos / 100
    }

    predicate InRange() {
      MIN_SECONDS <= seconds <= MAX_SECONDS && Ticks() <= MAX_TICKS
    }
  }

  datatype Error = OutOfRange | BadFormat

  /** The constructor throws outside the years 1 to 9999. */
  function Make(seconds: int, subsecNanos: nat): Result<Datetime, Error> {
    var d := Datetime(seconds, subsecNanos);
    if d.InRange() then Ok(d) else Err(OutOfRange)
  }

  function ToString(cal: Calendar, d: Datetime): string
    requires d.InRange()
  {
    var formatted := cal.format(d.Ticks() / 10_000_000);
    if d.subsecNanos == 0 then formatted else formatted + "." + TrimEnd(PadLeft(d.subsecNanos, 9))
  }

  function FromPlatform(ticks: Option<nat>, nanos: nat): Result<Datetime, Error> {
    match ticks
    case None => Err(BadFormat)
    case Some(t) => Make(t / 10_000_000 + MIN_SECONDS, nanos)
  }

  function Parsed(cal: Calendar, value: string): Result<Datetime, Error> {
    FromPlatform(cal.parse(Truncated(value)), Nanos(value))
  }

  method Parse(cal: Calendar, value: string) returns (r: Result<Datetime, Error>)
    ensures r == Parsed(cal, value)
  {
    var nanos := 0;
    var datetimePart := value;
    var dot := IndexOf(value, '.');
    ghost var f := Fraction(value);
    if dot < |value| {
      var end := FractionalEnd(value, dot);
      var fractional := value[dot + 1..end];
      var padded := PadRight(fractional, 9);
      if |padded| > 9 {
        padded := padded[..9];
      }
      assert padded == NineDigits(f);
      nanos := Value(padded);
      var truncated := if |fractional| > 7 then fractional[..7] else fractional;
      TruncatedParts(value);
      datetimePart := value[..dot + 1] + truncated + value[end..];
    } else {
      assert NineDigits(f) == Zeros(9);
      ZerosValue(9);
    }
    var ticks := cal.parse(datetimePart);
    r := FromPlatform(ticks, nanos);
  }

  // ----- what is accepted -----

  /**
   Accepted are the seconds of the years 1 to 9999, as long as the nanoseconds do not carry the
   ticks beyond them; everything else is refused.
   */
  lemma MakeLaw(seconds: int, subsecNanos: nat)
    ensures if && -62_135_596_800 <= seconds < 253_402_300_800
               && seconds * 10_000_000 + subsecNanos / 100 < 2_534_023_008_000_000_000
            then Make(seconds, subsecNanos) == Ok(Datetime(seconds, subsecNanos))
            else Make(seconds, subsecNanos) == Err(OutOfRange)
  {
  }

  /**
   A text is refused exactly if the platform refuses it with its fraction cut to seven digits.
   Otherwise it gives the whole seconds since 1970 and the nanoseconds of its nine digits.
   */
  lemma ParsedLaw(cal: Calendar, value: string)
    requires cal.parse(Truncated(value)).Some? ==> cal.parse(Truncated(value)).value <= MAX_TICKS
    ensures match cal.parse(Truncated(value))
            case None => Parsed(cal, value) == Err(BadFormat)
            case Some(ticks) => Parsed(cal, value) == Ok(Datetime(ticks / 10_000_000 - 62_135_596_800, Nanos(value)))
  {
    ValueBound(NineDigits(Fraction(value)));
    Pow10Values();
  }

  // ----- the round trip -----

  /** Below a whole second the ticks never move the printed second. */
  lemma SecondOfTicks(d: Datetime)
    requires d.InRange() && d.subsecNanos < 1_000_000_000
    ensures d.Ticks() / 10_000_000 == d.seconds - MIN_SECONDS
  {
  }

  lemma FractionOfPrinted(prefix: string, f: string)
    requires '.' !in prefix && AllDigits(f)
    ensures var value := prefix + "." + f;
            Fraction(value) == f && Truncated(value) == prefix + "." + Seven(f)
  {
    var value := prefix + "." + f;
    assert value == prefix + "." + f + [];
    FractionBetween(prefix, f, []);
    TruncatedParts(value);
    assert value[..|prefix| + 1] == prefix + ".";
    assert value[|value|..] == [];
  }

  /** Trimming the nine digits and filling them up again gives the same nanoseconds. */
  lemma PrintedNanos(n: nat)
    requires 0 < n < 1_000_000_000
    ensures var f := TrimEnd(PadLeft(n, 9));
            AllDigits(f) && 1 <= |f| <= 9 && f[|f| - 1] != '0' && Value(NineDigits(f)) == n
  {
    Pow10Values();
    PadLeftLaw(n, 9);
    var s := PadLeft(n, 9);
    TrimKeepsDigits(s);
    PadTrim(s);
    assert NineDigits(TrimEnd(s)) == s;
  }

  /**
   The printed text: the second that the nanoseconds carry to and, unless there are none, a point and
   their nine digits, or more if they are more, without trailing zeros.
   */
  lemma PrintedText(cal: Calendar, d: Datetime)
    requires d.InRange()
    ensures var second := cal.format(d.seconds + 62_135_596_800 + d.subsecNanos / 1_000_000_000);
            if d.subsecNanos == 0 then ToString(cal, d) == second
            else exists f, zeros: nat ::
                   && ToString(cal, d) == second + "." + f && AllDigits(f) && f != [] && f[|f| - 1] != '0'
                   && Value(f) * Pow10(zeros) == d.subsecNanos
                   && |f| + zeros == if d.subsecNanos < 1_000_000_000 then 9 else |Digits(d.subsecNanos)|
  {
    SecondCarried(d);
    if d.subsecNanos > 0 {
      TrimmedDigits(d.subsecNanos);
    }
  }

  lemma SecondCarried(d: Datetime)
    requires d.InRange()
    ensures d.Ticks() / 10_000_000 == d.seconds + 62_135_596_800 + d.subsecNanos / 1_000_000_000
  {
  }

  lemma TrimmedDigits(n: nat)
    requires n > 0
    ensures var f := TrimEnd(PadLeft(n, 9));
            var zeros := |PadLeft(n, 9)| - |f|;
            && AllDigits(f) && f != [] && f[|f| - 1] != '0' && zeros >= 0 && Value(f) * Pow10(zeros) == n
            && |f| + zeros == if n < 1_000_000_000 then 9 else |Digits(n)|
  {
    PadLeftLaw(n, 9);
    DigitsLength(n, 9);
    Pow10Values();
    TrimmedValue(PadLeft(n, 9));
  }

  lemma TrimmedValue(s: string)
    requires AllDigits(s) && Value(s) > 0
    ensures var f := TrimEnd(s);
            AllDigits(f) && f != [] && Value(f) * Pow10(|s| - |f|) == Value(s)
  {
    var f := TrimEnd(s);
    TrimKeepsDigits(s);
    assert s == f + Zeros(|s| - |f|);
    ValueConcat(f, Zeros(|s| - |f|));
    ZerosValue(|s| - |f|);
  }

  /** From a thousand million on, the text has ten digits, of which only nine are read. */
  lemma OversizedNanos(n: nat)
    requires n >= 1_000_000_000
    ensures var f := TrimEnd(PadLeft(n, 9));
            AllDigits(f) && f != [] && Value(NineDigits(f)) != n
  {
    PadLeftLaw(n, 9);
    var f := TrimEnd(PadLeft(n, 9));
    TrimKeepsDigits(PadLeft(n, 9));
    ValueBound(NineDigits(f));
    Pow10Values();
  }

  lemma WholeRoundTrip(cal: Calendar, d: Datetime)
    requires Exact(cal) && d.InRange() && d.subsecNanos == 0
    ensures Parsed(cal, ToString(cal, d)) == Ok(d)
  {
    var s := d.Ticks() / 10_000_000;
    var text := cal.format(s);
    SecondOfTicks(d);
    assert IndexOf(text, '.') == |text|;
    ZerosValue(9);
    assert NineDigits([]) == Zeros(9);
  }

  /** A fraction of up to seven digits is read within the second that was printed. */
  lemma FractionStaysInSecond(cal: Calendar, s: nat, f: string) returns (ticks: nat)
    requires Exact(cal) && s <= MAX_SECONDS - MIN_SECONDS && AllDigits(f) && 1 <= |f| <= 7
    ensures cal.parse(cal.format(s) + "." + f) == Some(ticks) && ticks / 10_000_000 == s
  {
    assert ReadsFraction(cal, s, f);
    ValueBound(PadRight(f, 7));
    Pow10Values();
    ticks := s * 10_000_000 + Value(PadRight(f, 7));
  }

  lemma FractionParsed(cal: Calendar, s: nat, f: string)
    requires Exact(cal) && s <= MAX_SECONDS - MIN_SECONDS && AllDigits(f) && f != []
    ensures Parsed(cal, cal.format(s) + "." + f) == Make(s + MIN_SECONDS, Value(NineDigits(f)))
  {
    FractionOfPrinted(cal.format(s), f);
    var ticks := FractionStaysInSecond(cal, s, Seven(f));
  }

  lemma FractionRoundTrip(cal: Calendar, d: Datetime)
    requires Exact(cal) && d.InRange() && 0 < d.subsecNanos < 1_000_000_000
    ensures Parsed(cal, ToString(cal, d)) == Ok(d)
  {
    var s := d.seconds - MIN_SECONDS;
    var f := TrimEnd(PadLeft(d.subsecNanos, 9));
    SecondOfTicks(d);
    PrintedNanos(d.subsecNanos);
    FractionParsed(cal, s, f);
  }

  lemma OversizedNoRoundTrip(cal: Calendar, d: Datetime)
    requires Exact(cal) && d.InRange() && d.subsecNanos >= 1_000_000_000
    ensures Parsed(cal, ToString(cal, d)) != Ok(d)
  {
    OversizedNanos(d.subsecNanos);
    FractionOfPrinted(cal.format(d.Ticks() / 10_000_000), TrimEnd(PadLeft(d.subsecNanos, 9)));
  }

  /** Printing and reading gives back the datetime exactly when its nanoseconds are below a second. */
  lemma RoundTripIff(cal: Calendar, seconds: int, subsecNanos: nat)
    requires Exact(cal) && Make(seconds, subsecNanos).Ok?
    ensures var d := Datetime(seconds, subsecNanos);
            Parsed(cal, ToString(cal, d)) == Ok(d) <==> subsecNanos < 1_000_000_000
  {
    var d := Datetime(seconds, subsecNanos);
    if subsecNanos == 0 {
      WholeRoundTrip(cal, d);
    } else if subsecNanos < 1_000_000_000 {
      FractionRoundTrip(cal, d);
    } else {
      OversizedNoRoundTrip(cal, d);
    }
  }
}
