/** What a text of duration fields reads as, whatever digits it is written with. */
module DurationText {
  import opened Wrappers
  import opened Decimal
  import opened Binary64
  import opened NanosecondLoss
  import opened Duration

  // ----- finding a field -----

  predicate EndsClean(s: string) {
    s == [] || !InRun(s[|s| - 1], true)
  }

  /** A group of digits is found behind a prefix that lacks the unit and does not end in the group. */
  lemma FindAt(pre: string, g: string, unit: char, points: bool, rest: string)
    requires g != [] && (forall i | 0 <= i < |g| :: InRun(g[i], points)) && !InRun(unit, points)
    requires unit !in pre && EndsClean(pre)
    ensures Find(pre + g + [unit] + rest, unit, points) == Some((|pre|, |pre| + |g|))
  {
    var s := pre + g + [unit] + rest;
    var i, e := |pre|, |pre| + |g|;
    assert forall j | i <= j < e :: s[j] == g[j - i];
    assert s[e] == unit;
    assert IsMatch(s, unit, points, i, e);
    var m := Find(s, unit, points).value;
    assert m.0 <= i;
    assert forall j | 0 <= j < i :: s[j] == pre[j];
  }

  lemma FindNone(s: string, unit: char, points: bool)
    requires unit !in s && !InRun(unit, points)
    ensures Find(s, unit, points) == None
  {
  }

  /** A number and its unit, or nothing for an absent one. */
  function Field(g: string, unit: char): string {
    if g == "" then "" else g + [unit]
  }

  function Bounded(n: nat, max: nat): Result<nat, Error> {
    if n <= max then Ok(n) else Err(Overflow)
  }

  /** A field is read as its number; an absent one as zero. */
  lemma ReadFieldAt(pre: string, g: string, unit: char, rest: string, max: nat)
    requires !InRun(unit, true) && AllDigits(g)
    requires unit !in pre && unit !in rest && EndsClean(pre)
    ensures ReadUnit(pre + Field(g, unit) + rest, unit, max) == Bounded(Value(g), max)
  {
    var s := pre + Field(g, unit) + rest;
    if g != "" {
      FieldFound(pre, g, unit, rest);
      MatchRead(s, unit, max, |pre|, |pre| + |g|, g);
    } else {
      assert s == pre + rest;
      FindNone(s, unit, false);
    }
  }

  lemma FieldFound(pre: string, g: string, unit: char, rest: string)
    requires !InRun(unit, true) && AllDigits(g) && g != [] && unit !in pre && EndsClean(pre)
    ensures var s := pre + Field(g, unit) + rest;
            Find(s, unit, false) == Some((|pre|, |pre| + |g|)) && s[|pre|..|pre| + |g|] == g
  {
    FindAt(pre, g, unit, false, rest);
    ConcatAssociates(pre, g, [unit]);
    ConcatAssociates(pre + g, [unit], rest);
    SliceOut(pre, g, [unit] + rest);
  }

  lemma MatchRead(s: string, unit: char, max: nat, i: nat, e: nat, g: string)
    requires !IsDigit(unit) && AllDigits(g)
    requires Find(s, unit, false) == Some((i, e)) && i <= e <= |s| && s[i..e] == g
    ensures ReadUnit(s, unit, max) == Bounded(Value(g), max)
  {
  }

  lemma ReadFirst(g: string, b: string, c: string, unit: char, max: nat)
    requires !InRun(unit, true) && AllDigits(g) && unit !in b && unit !in c
    ensures ReadUnit(Field(g, unit) + b + c, unit, max) == Bounded(Value(g), max)
  {
    ConcatAssociates(Field(g, unit), b, c);
    assert [] + Field(g, unit) == Field(g, unit);
    ReadFieldAt([], g, unit, b + c, max);
  }

  predicate AllRun(g: string) {
    forall i | 0 <= i < |g| :: InRun(g[i], true)
  }

  lemma FieldShape(g: string, unit: char)
    requires !InRun(unit, true) && AllRun(g)
    ensures EndsClean(Field(g, unit))
    ensures forall c | c in Field(g, unit) :: InRun(c, true) || c == unit
  {
  }

  // ----- the date -----

  function DateText(y: string, m: string, d: string): string {
    Field(y, 'Y') + Field(m, 'M') + Field(d, 'D')
  }

  predicate Plain(s: string) {
    'W' !in s && '\n' !in s && 'T' !in s
  }

  lemma DateReads(y: string, m: string, d: string)
    requires AllDigits(y) && AllDigits(m) && AllDigits(d)
    ensures var s := DateText(y, m, d);
            && ReadUnit(s, 'Y', INT_MAX) == Bounded(Value(y), INT_MAX)
            && ReadUnit(s, 'M', INT_MAX) == Bounded(Value(m), INT_MAX)
            && ReadUnit(s, 'D', INT_MAX) == Bounded(Value(d), INT_MAX)
            && Plain(s)
  {
    DateShape(y, m, d);
    ReadFirst(y, Field(m, 'M'), Field(d, 'D'), 'Y', INT_MAX);
    ReadFieldAt(Field(y, 'Y'), m, 'M', Field(d, 'D'), INT_MAX);
    ReadLast(Field(y, 'Y') + Field(m, 'M'), d, 'D', INT_MAX);
  }

  lemma DateShape(y: string, m: string, d: string)
    requires AllDigits(y) && AllDigits(m) && AllDigits(d)
    ensures Plain(DateText(y, m, d))
    ensures 'Y' !in Field(m, 'M') && 'Y' !in Field(d, 'D') && 'M' !in Field(y, 'Y') && 'M' !in Field(d, 'D')
    ensures EndsClean(Field(y, 'Y')) && EndsClean(Field(y, 'Y') + Field(m, 'M')) && 'D' !in Field(y, 'Y') + Field(m, 'M')
  {
    FieldShape(y, 'Y');
    FieldShape(m, 'M');
    FieldShape(d, 'D');
  }

  lemma ReadLast(pre: string, g: string, unit: char, max: nat)
    requires !InRun(unit, true) && AllDigits(g) && unit !in pre && EndsClean(pre)
    ensures ReadUnit(pre + Field(g, unit), unit, max) == Bounded(Value(g), max)
  {
    ReadFieldAt(pre, g, unit, [], max);
    assert pre + Field(g, unit) + [] == pre + Field(g, unit);
  }

  /** Twelve months a year, in 32 bits; a number beyond them is an overflow. */
  function DateMeaning(y: nat, m: nat, d: nat): Result<(int, int), Error> {
    if y > 2_147_483_647 || m > 2_147_483_647 || d > 2_147_483_647 then Err(Overflow)
    else Ok((Wrap32(12 * y + m), d))
  }

  lemma DateOfReads(s: string, y: nat, m: nat, d: nat)
    requires ReadUnit(s, 'Y', INT_MAX) == Bounded(y, INT_MAX)
    requires ReadUnit(s, 'M', INT_MAX) == Bounded(m, INT_MAX)
    requires ReadUnit(s, 'D', INT_MAX) == Bounded(d, INT_MAX)
    ensures ParseDate(s) == DateMeaning(y, m, d)
  {
    if y <= INT_MAX && m <= INT_MAX && d <= INT_MAX {
      WrapOnce32(12 * y, m);
    }
  }

  lemma WrapOnce32(a: int, b: int)
    ensures Wrap32(Wrap32(a) + b) == Wrap32(a + b)
  {
  }

  // ----- the time -----

  function TimeText(h: string, m: string, g: string): string {
    Field(h, 'H') + Field(m, 'M') + Field(g, 'S')
  }

  lemma TimeShape(h: string, m: string, g: string)
    requires AllDigits(h) && AllDigits(m) && AllRun(g)
    ensures Plain(TimeText(h, m, g))
    ensures var pre := Field(h, 'H') + Field(m, 'M'); 'S' !in pre && EndsClean(pre)
  {
    FieldShape(h, 'H');
    FieldShape(m, 'M');
    FieldShape(g, 'S');
  }

  lemma TimeReadsUnits(h: string, m: string, g: string)
    requires AllDigits(h) && AllDigits(m) && AllRun(g)
    ensures var s := TimeText(h, m, g);
            && ReadUnit(s, 'H', LONG_MAX) == Bounded(Value(h), LONG_MAX)
            && ReadUnit(s, 'M', LONG_MAX) == Bounded(Value(m), LONG_MAX)
  {
    FieldShape(h, 'H');
    FieldShape(m, 'M');
    FieldShape(g, 'S');
    ReadFirst(h, Field(m, 'M'), Field(g, 'S'), 'H', LONG_MAX);
    ReadFieldAt(Field(h, 'H'), m, 'M', Field(g, 'S'), LONG_MAX);
  }

  /** The seconds of a run of digits and points, or none. */
  function SecondsMeaning(p: SecondsReader, g: string): Result<int, Error> {
    if g == "" then Ok(0) else SecondsOf(p, g)
  }

  lemma ReadSecondsAt(p: SecondsReader, pre: string, g: string)
    requires AllRun(g) && 'S' !in pre && EndsClean(pre)
    ensures ReadSeconds(p, pre + Field(g, 'S')) == SecondsMeaning(p, g)
  {
    var s := pre + Field(g, 'S');
    if g != "" {
      FindAt(pre, g, 'S', true, []);
      assert pre + g + ['S'] + [] == s;
      SecondsOfMatch(p, s, |pre|, |pre| + |g|, g);
    } else {
      assert s == pre;
      FindNone(pre, 'S', true);
    }
  }

  lemma SecondsOfMatch(p: SecondsReader, s: string, i: nat, e: nat, g: string)
    requires Find(s, 'S', true) == Some((i, e)) && i <= e <= |s| && s[i..e] == g
    ensures ReadSeconds(p, s) == SecondsOf(p, g)
  {
  }

  /** Hours and minutes in 64 bits; a number beyond them is an overflow. */
  function TimeMeaning(h: nat, m: nat, seconds: Result<int, Error>): Result<int, Error> {
    if h > 9_223_372_036_854_775_807 || m > 9_223_372_036_854_775_807 then Err(Overflow)
    else if seconds.Err? then seconds
    else Ok(TotalNanos(h, m, seconds.value))
  }

  lemma TimeOfReads(p: SecondsReader, s: string, h: nat, m: nat, seconds: Result<int, Error>)
    requires ReadUnit(s, 'H', LONG_MAX) == Bounded(h, LONG_MAX) && ReadUnit(s, 'M', LONG_MAX) == Bounded(m, LONG_MAX)
    requires ReadSeconds(p, s) == seconds
    ensures ParseTime(p, s) == TimeMeaning(h, m, seconds)
  {
  }

  /** The nanoseconds of the three parts together, in 64 bits. */
  lemma TotalWrapped(h: nat, m: nat, n: int)
    ensures TotalNanos(h, m, n) == Wrap64(3_600_000_000_000 * h + 60_000_000_000 * m + n)
  {
    WrapThrice64(h * 3_600_000_000_000, m * 60_000_000_000, n);
  }

  lemma WrapThrice64(a: int, b: int, c: int)
    ensures Wrap64(Wrap64(Wrap64(a) + Wrap64(b)) + c) == Wrap64(a + b + c)
  {
    WrapOnce64(a, b);
    WrapOnce64(a + b, c);
    WrapOnce64(b, Wrap64(a));
  }

  lemma WrapOnce64(a: int, b: int)
    ensures Wrap64(Wrap64(a) + b) == Wrap64(a + b)
  {
  }

  // ----- the whole text -----

  lemma SplitText(date: string, time: string, tail: string)
    requires Plain(date) && Plain(time) && (tail != [] ==> tail[0] == 'T')
    ensures SplitAtT("P" + date) == (date, "")
    ensures SplitAtT("P" + date + "T" + time + tail) == (date, time)
  {
    var s := "P" + date;
    assert forall j | 1 <= j < |s| :: s[j] == date[j - 1];
    assert IndexOf(s, 'T', 1) == |s| && s[1..] == date;
    var t := "P" + date + "T" + time + tail;
    var e := |s| + 1 + |time|;
    assert forall j | 1 <= j < |s| :: t[j] == date[j - 1];
    assert t[|s|] == 'T';
    assert IndexOf(t, 'T', 1) == |s|;
    assert forall j | |s| < j < e :: t[j] == time[j - |s| - 1];
    assert tail != [] ==> t[e] == tail[0];
    assert IndexOf(t, 'T', |s| + 1) == e;
    assert t[1..|s|] == date && t[|s| + 1..e] == time;
  }

  /** The week form has neither a T nor anything but digits before its W. */
  lemma NotWeeks(s: string)
    requires ('W' !in s && '\n' !in s) || 'T' in s
    ensures WeekDigits(s) == None
  {
    if 'T' in s {
      var i :| 0 <= i < |s| && s[i] == 'T';
      var body := if s[|s| - 1] == '\n' then s[..|s| - 1] else s;
      assert body[i] == 'T';
      assert |body| > 2 && 0 < i < |body| - 1 ==> body[1..|body| - 1][i - 1] == 'T';
    }
  }

  /**
   What a text of fields reads as, for any digits, any run of digits and points as seconds, and
   anything behind a second T: the fields are taken in order, and the first that cannot be read fails.
   */
  lemma FieldsLaw(p: SecondsReader, y: string, m: string, d: string, h: string, mi: string, g: string, tail: string)
    requires AllDigits(y) && AllDigits(m) && AllDigits(d) && AllDigits(h) && AllDigits(mi) && AllRun(g)
    requires tail != [] ==> tail[0] == 'T'
    ensures Parsed(p, "P" + DateText(y, m, d) + "T" + TimeText(h, mi, g) + tail)
            == Joined(DateMeaning(Value(y), Value(m), Value(d)), TimeMeaning(Value(h), Value(mi), SecondsMeaning(p, g)))
  {
    DateLaw(y, m, d);
    TimeLaw(p, h, mi, g);
    ReadsBoth(p, DateText(y, m, d), TimeText(h, mi, g), tail, DateMeaning(Value(y), Value(m), Value(d)),
              TimeMeaning(Value(h), Value(mi), SecondsMeaning(p, g)));
  }

  /** Without a T there is no time. */
  lemma DateOnlyLaw(p: SecondsReader, y: string, m: string, d: string)
    requires AllDigits(y) && AllDigits(m) && AllDigits(d)
    ensures Parsed(p, "P" + DateText(y, m, d)) == Joined(DateMeaning(Value(y), Value(m), Value(d)), Ok(0))
  {
    DateLaw(y, m, d);
    ReadsDate(p, DateText(y, m, d), DateMeaning(Value(y), Value(m), Value(d)));
  }

  lemma DateLaw(y: string, m: string, d: string)
    requires AllDigits(y) && AllDigits(m) && AllDigits(d)
    ensures Plain(DateText(y, m, d)) && ParseDate(DateText(y, m, d)) == DateMeaning(Value(y), Value(m), Value(d))
  {
    DateReads(y, m, d);
    DateOfReads(DateText(y, m, d), Value(y), Value(m), Value(d));
  }

  lemma TimeLaw(p: SecondsReader, h: string, mi: string, g: string)
    requires AllDigits(h) && AllDigits(mi) && AllRun(g)
    ensures Plain(TimeText(h, mi, g))
    ensures ParseTime(p, TimeText(h, mi, g)) == TimeMeaning(Value(h), Value(mi), SecondsMeaning(p, g))
  {
    TimeShape(h, mi, g);
    TimeReadsUnits(h, mi, g);
    ReadSecondsAt(p, Field(h, 'H') + Field(mi, 'M'), g);
    TimeOfReads(p, TimeText(h, mi, g), Value(h), Value(mi), SecondsMeaning(p, g));
  }

  /** A time without an error: hours, minutes and nanoseconds. */
  lemma TimeInRange(p: SecondsReader, text: string, h: string, mi: string, g: string, hours: nat, minutes: nat, nanos: int)
    requires AllDigits(h) && AllDigits(mi) && AllRun(g) && text == TimeText(h, mi, g)
    requires Value(h) == hours <= LONG_MAX && Value(mi) == minutes <= LONG_MAX && SecondsMeaning(p, g) == Ok(nanos)
    ensures Plain(text) && ParseTime(p, text) == Ok(TotalNanos(hours, minutes, nanos))
  {
    TimeLaw(p, h, mi, g);
  }

  /** The date of a text whose fields have the given meaning. */
  lemma DateFor(text: string, y: string, m: string, d: string, r: Result<(int, int), Error>)
    requires AllDigits(y) && AllDigits(m) && AllDigits(d) && text == DateText(y, m, d)
    requires DateMeaning(Value(y), Value(m), Value(d)) == r
    ensures Plain(text) && ParseDate(text) == r
  {
    DateLaw(y, m, d);
  }

  lemma DateInRange(y: nat, m: nat, d: nat)
    requires 12 * y + m <= INT_MAX && d <= INT_MAX
    ensures DateMeaning(y, m, d) == Ok((12 * y + m, d))
  {
  }

  lemma ReadsDate(p: SecondsReader, date: string, r: Result<(int, int), Error>)
    requires Plain(date) && ParseDate(date) == r
    ensures Parsed(p, "P" + date) == Joined(r, Ok(0))
  {
    SplitText(date, [], []);
    NotWeeks("P" + date);
    NoTime(p);
    ParsedFrom(p, "P" + date, date, "");
  }

  lemma NoTime(p: SecondsReader)
    ensures ParseTime(p, "") == Ok(0)
  {
  }

  lemma ReadsBoth(p: SecondsReader, date: string, time: string, tail: string,
                  r: Result<(int, int), Error>, t: Result<int, Error>)
    requires Plain(date) && Plain(time) && (tail != [] ==> tail[0] == 'T')
    requires ParseDate(date) == r && ParseTime(p, time) == t
    ensures Parsed(p, "P" + date + "T" + time + tail) == Joined(r, t)
  {
    var s := "P" + date + "T" + time + tail;
    assert s[|date| + 1] == 'T';
    SplitText(date, time, tail);
    NotWeeks(s);
    ParsedFrom(p, s, date, time);
  }

  lemma ParsedFrom(p: SecondsReader, s: string, date: string, time: string)
    requires s != [] && s[0] == 'P' && WeekDigits(s).None? && SplitAtT(s) == (date, time)
    ensures Parsed(p, s) == Joined(ParseDate(date), ParseTime(p, time))
  {
  }

  /** A text that does not begin with a P is refused. */
  lemma NoLeadingP(p: SecondsReader, s: string)
    requires !("P" <= s)
    ensures Parsed(p, s) == Err(BadFormat)
  {
  }

  // ----- decimal seconds -----

  lemma DecimalOfDigits(w: string)
    requires AllDigits(w) && w != []
    ensures DecimalOf(w) == Some((Value(w), 0))
  {
    assert IndexOf(w, '.') == |w| && w[..|w|] == w;
    assert w + "" == w;
  }

  lemma DecimalOfParts(w: string, f: string)
    requires AllDigits(w) && AllDigits(f) && w + f != []
    ensures AllDigits(w + f) && DecimalOf(w + "." + f) == Some((Value(w + f), |f|))
  {
    PointIndex(w, f);
    var s := w + "." + f;
    assert s[..|w|] == w && s[|w| + 1..] == f;
  }

  /** Digits with at most one point among them; anything else is refused. */
  lemma DecimalIff(g: string)
    ensures DecimalOf(g).Some? <==>
            (AllDigits(g) && g != [])
            || exists w, f :: AllDigits(w) && AllDigits(f) && w + f != [] && g == w + "." + f
  {
    var dot := IndexOf(g, '.');
    if DecimalOf(g).Some? {
      if dot < |g| {
        var w, f := g[..dot], g[dot + 1..];
        assert g == w + "." + f;
        assert AllDigits(w) by { assert forall i | 0 <= i < |w| :: w[i] == (w + f)[i]; }
        assert AllDigits(f) by { assert forall i | 0 <= i < |f| :: f[i] == (w + f)[|w| + i]; }
      } else {
        assert g + "" == g && g[..dot] == g;
      }
    } else {
      if AllDigits(g) && g != [] {
        DecimalOfDigits(g);
      }
      if w, f :| AllDigits(w) && AllDigits(f) && w + f != [] && g == w + "." + f {
        DecimalOfParts(w, f);
      }
    }
  }

  lemma {:induction false} ScaledTen(x: real, k: nat)
    ensures Scaled(10.0 * x, k + 1) == Scaled(x, k)
  {
    if k > 0 {
      ScaledTen(x, k - 1);
    }
  }

  /** More places with as many zeros behind are the same number. */
  lemma {:induction false} ScaledUp(v: nat, k: nat, j: nat)
    ensures Scaled(v as real, k) == Scaled((v * Pow10(j)) as real, k + j)
  {
    if j > 0 {
      ScaledUp(v, k, j - 1);
      ScaledTen((v * Pow10(j - 1)) as real, k + j - 1);
      assert v * Pow10(j) == 10 * (v * Pow10(j - 1));
    }
  }

  lemma ScaledByNine(x: real)
    ensures Scaled(x, 9) == x / 1_000_000_000.0
  {
  }

  /** Nanoseconds of a decimal number of seconds with up to nine places. */
  function NanosOfDecimal(v: nat, k: nat): nat
    requires k <= 9
  {
    v * Pow10(9 - k)
  }

  lemma DecimalScaled(v: nat, k: nat)
    requires k <= 9
    ensures Scaled(v as real, k) == NanosOfDecimal(v, k) as real / 1_000_000_000.0
  {
    ScaledUp(v, k, 9 - k);
    ScaledByNine(NanosOfDecimal(v, k) as real);
  }

  /** The double product does not fall below the number; for whole seconds it is exact. */
  predicate Survives(round: Rounding, n: nat) {
    n % 1_000_000_000 == 0 || round(round(n as real / 1_000_000_000.0) * 1_000_000_000.0) >= n as real
  }

  /** Below 2^52 nanoseconds, some fifty-two days, a decimal is read as its nanoseconds, or one less. */
  lemma DecimalRead(round: Rounding, overflow: real -> int, v: nat, k: nat)
    requires CorrectlyRounded(round) && k <= 9 && NanosOfDecimal(v, k) < 0x10_0000_0000_0000
    ensures var n := NanosOfDecimal(v, k);
            DoubleReader(round, overflow)(v, k) == if Survives(round, n) then n else n - 1
  {
    DecimalScaled(v, k);
    NanosRead(round, NanosOfDecimal(v, k));
  }

  lemma NanosRead(round: Rounding, n: nat)
    requires CorrectlyRounded(round) && n < 0x10_0000_0000_0000
    ensures NanosOf(round, n as real / 1_000_000_000.0) == if Survives(round, n) then n else n - 1
  {
    if n % 1_000_000_000 == 0 {
      assert n as real / 1_000_000_000.0 == (n / 1_000_000_000) as real;
      WholeSecondsExact(round, n / 1_000_000_000);
    } else {
      NanosWithinOne(round, n);
    }
  }

  lemma SurvivesIff(n: nat)
    requires n < 0x10_0000_0000_0000
    ensures Survives(Round53, n) <==> !LosesOne(n)
  {
    LossIff(n);
    if n % 1_000_000_000 == 0 {
      Round53IsCorrect();
      WholeSecondsExact(Round53, n / 1_000_000_000);
      assert n as real / 1_000_000_000.0 == (n / 1_000_000_000) as real;
    }
  }

  predicate ShortDecimal(w: string, f: string) {
    && AllDigits(w) && AllDigits(f) && w + f != [] && |f| <= 9
    && AllDigits(w + f) && NanosOfDecimal(Value(w + f), |f|) < 0x10_0000_0000_0000
  }

  /**
   Seconds with a fraction of up to nine digits, below 2^52 nanoseconds, are read as their nanoseconds
   or one less, whatever correct rounding is used.
   */
  lemma DecimalSeconds(round: Rounding, overflow: real -> int, w: string, f: string)
    requires CorrectlyRounded(round) && ShortDecimal(w, f)
    ensures var n := NanosOfDecimal(Value(w + f), |f|);
            SecondsMeaning(DoubleReader(round, overflow), w + "." + f) == Ok(if Survives(round, n) then n else n - 1)
  {
    var n := NanosOfDecimal(Value(w + f), |f|);
    DecimalRead(round, overflow, Value(w + f), |f|);
    DecimalMeaning(DoubleReader(round, overflow), w, f, if Survives(round, n) then n else n - 1);
  }

  lemma DecimalMeaning(p: SecondsReader, w: string, f: string, r: int)
    requires AllDigits(w) && AllDigits(f) && w + f != [] && AllDigits(w + f) && p(Value(w + f), |f|) == r
    ensures SecondsMeaning(p, w + "." + f) == Ok(r)
  {
    DecimalOfParts(w, f);
  }

  lemma DecimalRun(w: string, f: string)
    requires AllDigits(w) && AllDigits(f)
    ensures AllRun(w + "." + f)
  {
  }

  /** So are they behind any other fields. */
  lemma DecimalText(round: Rounding, overflow: real -> int, y: string, m: string, d: string, h: string, mi: string,
                    w: string, f: string, tail: string)
    requires AllDigits(y) && AllDigits(m) && AllDigits(d) && AllDigits(h) && AllDigits(mi)
    requires CorrectlyRounded(round) && ShortDecimal(w, f) && (tail != [] ==> tail[0] == 'T')
    ensures var n := NanosOfDecimal(Value(w + f), |f|);
            Parsed(DoubleReader(round, overflow), "P" + DateText(y, m, d) + "T" + TimeText(h, mi, w + "." + f) + tail)
            == Joined(DateMeaning(Value(y), Value(m), Value(d)),
                      TimeMeaning(Value(h), Value(mi), Ok(if Survives(round, n) then n else n - 1)))
  {
    DecimalSeconds(round, overflow, w, f);
    DecimalRun(w, f);
    FieldsLaw(DoubleReader(round, overflow), y, m, d, h, mi, w + "." + f, tail);
  }

  /** And alone: the text of the seconds. */
  lemma DecimalAlone(round: Rounding, overflow: real -> int, w: string, f: string)
    requires CorrectlyRounded(round) && ShortDecimal(w, f)
    ensures var n := NanosOfDecimal(Value(w + f), |f|);
            Parsed(DoubleReader(round, overflow), "PT" + (w + "." + f) + "S")
            == Ok(Duration(0, 0, if Survives(round, n) then n else n - 1))
  {
    var n := NanosOfDecimal(Value(w + f), |f|);
    DecimalSeconds(round, overflow, w, f);
    DecimalRun(w, f);
    SecondsAlone(DoubleReader(round, overflow), w + "." + f, if Survives(round, n) then n else n - 1);
  }

  lemma SecondsAlone(p: SecondsReader, g: string, n: int)
    requires AllRun(g) && g != [] && SecondsMeaning(p, g) == Ok(n) && -1 <= n <= LONG_MAX
    ensures Parsed(p, "PT" + g + "S") == Ok(Duration(0, 0, n))
  {
    SecondsAloneTime(p, g, n);
    NoDateText();
    assert "P" + [] + "T" + (g + "S") + [] == "PT" + g + "S";
    ReadsBoth(p, [], g + "S", [], Ok((0, 0)), Ok(n));
  }

  lemma SecondsAloneTime(p: SecondsReader, g: string, n: int)
    requires AllRun(g) && g != [] && SecondsMeaning(p, g) == Ok(n) && -1 <= n <= LONG_MAX
    ensures Plain(g + "S") && ParseTime(p, g + "S") == Ok(n)
  {
    NoFields(g);
    TimeInRange(p, g + "S", [], [], g, 0, 0, n);
    TotalOfSeconds(n);
  }

  lemma NoFields(g: string)
    requires g != []
    ensures TimeText([], [], g) == g + "S"
  {
  }

  lemma TotalOfSeconds(n: int)
    requires -1 <= n <= LONG_MAX
    ensures TotalNanos(0, 0, n) == n
  {
  }

  lemma NoDateText()
    ensures Plain([]) && ParseDate([]) == Ok((0, 0))
  {
  }

  /** With doubles of the IEEE 754 format it is one less exactly for the numbers that the test names. */
  lemma DecimalExactly(overflow: real -> int, w: string, f: string)
    requires ShortDecimal(w, f)
    ensures var n := NanosOfDecimal(Value(w + f), |f|);
            Parsed(DoubleReader(Round53, overflow), "PT" + (w + "." + f) + "S")
            == Ok(Duration(0, 0, if LosesOne(n) then n - 1 else n))
  {
    var n := NanosOfDecimal(Value(w + f), |f|);
    Round53IsCorrect();
    DecimalSeconds(Round53, overflow, w, f);
    DecimalRun(w, f);
    SurvivesIff(n);
    SecondsAlone(DoubleReader(Round53, overflow), w + "." + f, if LosesOne(n) then n - 1 else n);
  }

  /** Seconds that are not a decimal number are refused, behind any other fields that can be read. */
  lemma BadSeconds(p: SecondsReader, y: string, m: string, d: string, h: string, mi: string, g: string, tail: string)
    requires AllDigits(y) && AllDigits(m) && AllDigits(d) && AllDigits(h) && AllDigits(mi) && AllRun(g) && g != []
    requires DateMeaning(Value(y), Value(m), Value(d)).Ok? && Value(h) <= LONG_MAX && Value(mi) <= LONG_MAX
    requires DecimalOf(g).None? && (tail != [] ==> tail[0] == 'T')
    ensures Parsed(p, "P" + DateText(y, m, d) + "T" + TimeText(h, mi, g) + tail) == Err(BadFormat)
  {
    FieldsLaw(p, y, m, d, h, mi, g, tail);
  }
}
