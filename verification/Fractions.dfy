/**
 The fraction of a second in a datetime text: its nanoseconds, and the form cut to the
 seven digits that the platform can parse. Digits are the ASCII ones.
 */
module Fractions {
  import opened Decimal

  const PLATFORM_DIGITS: nat := 7

  // ----- what a text says -----

  /** The digits after the first point; empty if there is no point. */
  function Fraction(value: string): (f: string)
    ensures AllDigits(f)
  {
    var dot := IndexOf(value, '.');
    if dot == |value| then [] else value[dot + 1..RunEnd(value, dot + 1)]
  }

  /** The first nine digits of the fraction, filled up with zeros. */
  function NineDigits(f: string): (d: string)
    requires AllDigits(f)
    ensures |d| == 9 && AllDigits(d)
  {
    PadRight(f, 9)[..9]
  }

  function Nanos(value: string): nat {
    Value(NineDigits(Fraction(value)))
  }

  function Truncated(value: string): string {
    var dot := IndexOf(value, '.');
    if dot == |value| then value
    else
      var end := RunEnd(value, dot + 1);
      if end - dot - 1 > PLATFORM_DIGITS then value[..dot + 1 + PLATFORM_DIGITS] + value[end..] else value
  }

  // ----- the operations -----

  method FractionalEnd(value: string, dot: nat) returns (end: nat)
    requires dot < |value|
    ensures end == RunEnd(value, dot + 1)
  {
    end := |value|;
    for i := dot + 1 to |value|
      invariant end == |value|
      invariant RunEnd(value, dot + 1) == RunEnd(value, i)
    {
      if !IsDigit(value[i]) {
        end := i;
        break;
      }
    }
  }

  /** A 32-bit result that never overflows: nine digits stay below a thousand million. */
  method ExtractNanos(value: string) returns (nanos: nat)
    ensures nanos == Nanos(value) && nanos < 1_000_000_000
  {
    var dot := IndexOf(value, '.');
    ValueBound(NineDigits(Fraction(value)));
    Pow10Values();
    if dot == |value| {
      ZerosValue(9);
      assert NineDigits([]) == Zeros(9);
      return 0;
    }
    var end := FractionalEnd(value, dot);
    var padded := PadRight(value[dot + 1..end], 9);
    if |padded| > 9 {
      padded := padded[..9];
    }
    assert padded == NineDigits(Fraction(value));
    nanos := Value(padded);
  }

  method TruncateFractional(value: string) returns (truncated: string)
    ensures truncated == Truncated(value)
  {
    var dot := IndexOf(value, '.');
    if dot == |value| {
      return value;
    }
    var end := FractionalEnd(value, dot);
    if end - dot - 1 > PLATFORM_DIGITS {
      return value[..dot + 8] + value[end..];
    }
    return value;
  }

  // ----- laws -----

  /** Seven digits of a fraction at most. */
  function Seven(f: string): string {
    if |f| > PLATFORM_DIGITS then f[..PLATFORM_DIGITS] else f
  }

  /** What surrounds the fraction is kept, and of the fraction its first seven digits. */
  lemma TruncatedParts(value: string)
    requires IndexOf(value, '.') < |value|
    ensures var dot := IndexOf(value, '.');
            var end := RunEnd(value, dot + 1);
            && value == value[..dot + 1] + Fraction(value) + value[end..]
            && Truncated(value) == value[..dot + 1] + Seven(Fraction(value)) + value[end..]
  {
    var dot := IndexOf(value, '.');
    var end := RunEnd(value, dot + 1);
    var f := Fraction(value);
    CutMiddle(value, dot + 1, end);
    if |f| > PLATFORM_DIGITS {
      assert Truncated(value) == value[..dot + 8] + value[end..];
      assert Seven(f) == f[..7];
    } else {
      assert Truncated(value) == value && Seven(f) == f;
    }
  }

  lemma CutMiddle(s: string, i: nat, j: nat)
    requires i <= j <= |s|
    ensures s == s[..i] + s[i..j] + s[j..]
    ensures j - i > 7 ==> s[..i + 7] == s[..i] + s[i..j][..7]
  {
  }

  /** The fraction of a truncated text is the first seven digits of the fraction. */
  lemma TruncatedFraction(value: string)
    ensures Fraction(Truncated(value)) == Seven(Fraction(value))
  {
    var dot := IndexOf(value, '.');
    if dot < |value| {
      UpToPoint(value, dot);
      TruncatedParts(value);
      FractionBetween(value[..dot], Seven(Fraction(value)), value[RunEnd(value, dot + 1)..]);
    }
  }

  lemma UpToPoint(s: string, i: nat)
    requires i < |s| && s[i] == '.'
    ensures s[..i + 1] == s[..i] + "."
  {
  }

  /** The fraction of a text put together from its parts. */
  lemma FractionBetween(prefix: string, f: string, rest: string)
    requires '.' !in prefix && AllDigits(f) && (rest != [] ==> !IsDigit(rest[0]))
    ensures var value := prefix + "." + f + rest;
            && IndexOf(value, '.') == |prefix| && RunEnd(value, |prefix| + 1) == |prefix| + 1 + |f|
            && Fraction(value) == f
  {
    var value, i, e := prefix + "." + f + rest, |prefix|, |prefix| + 1 + |f|;
    ConcatAssociates(prefix + ".", f, rest);
    PointIndex(prefix, f + rest);
    SliceOut(prefix + ".", f, rest);
    RunEndAt(value, i + 1, e);
  }

  /** A run ends where it is followed by the end or by a character outside it. */
  lemma RunEndAt(s: string, i: nat, e: nat)
    requires i <= e <= |s| && AllDigits(s[i..e])
    requires e < |s| ==> !IsDigit(s[e])
    ensures RunEnd(s, i) == e
  {
    assert forall j | i <= j < e :: s[j] == s[i..e][j - i];
  }

  /** Nanoseconds as the number that the fraction denotes, with further digits cut off. */
  lemma NanosLaw(value: string)
    ensures var f := Fraction(value);
            Nanos(value) == if |f| <= 9 then Value(f) * Pow10(9 - |f|) else Value(f[..9])
  {
    var f := Fraction(value);
    if |f| <= 9 {
      ValueConcat(f, Zeros(9 - |f|));
      ZerosValue(9 - |f|);
      assert NineDigits(f) == f + Zeros(9 - |f|);
    } else {
      assert NineDigits(f) == f[..9];
    }
  }

  lemma TruncateIdempotent(value: string)
    ensures Truncated(Truncated(value)) == Truncated(value)
  {
    TruncatedFraction(value);
  }

  /** Reading after truncating is reading and rounding down to a multiple of 100 nanoseconds. */
  lemma TruncationCommutes(value: string)
    ensures Nanos(Truncated(value)) == Nanos(value) / 100 * 100
  {
    TruncatedFraction(value);
    SevenOfNine(Fraction(value));
  }

  lemma SevenOfNine(f: string)
    requires AllDigits(f)
    ensures AllDigits(Seven(f)) && Value(NineDigits(Seven(f))) == Value(NineDigits(f)) / 100 * 100
  {
    var all := NineDigits(f);
    NineSplit(f);
    HundredsOf(all[..7], all[7..]);
  }

  lemma NineSplit(f: string)
    requires AllDigits(f)
    ensures AllDigits(Seven(f))
    ensures var all := NineDigits(f); all == all[..7] + all[7..] && NineDigits(Seven(f)) == all[..7] + Zeros(2)
  {
  }

  lemma HundredsOf(head: string, tail: string)
    requires AllDigits(head) && AllDigits(tail) && |tail| == 2
    ensures AllDigits(head + tail) && AllDigits(head + Zeros(2))
    ensures Value(head + Zeros(2)) == Value(head + tail) / 100 * 100
  {
    ValueConcat(head, tail);
    ValueConcat(head, Zeros(2));
    ZerosValue(2);
    ValueBound(tail);
    Pow10Values();
  }
}
