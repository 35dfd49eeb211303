/** Decimal text: printing, reading, padding, trimming, and finding runs of characters. */
module Decimal {

  predicate IsDigit(c: char) {
    '0' <= c <= '9'
  }

  predicate AllDigits(s: string) {
    forall i | 0 <= i < |s| :: IsDigit(s[i])
  }

  function DigitOf(d: nat): char
    requires d < 10
  {
    '0' + d as char
  }

  /** The number a string of digits denotes. */
  function Value(s: string): nat
    requires AllDigits(s)
  {
    if s == [] then 0 else 10 * Value(s[..|s| - 1]) + (s[|s| - 1] - '0') as nat
  }

  /** The shortest decimal text of a number. */
  function Digits(n: nat): string {
    if n < 10 then [DigitOf(n)] else Digits(n / 10) + [DigitOf(n % 10)]
  }

  lemma {:induction false} DigitsLaw(n: nat)
    ensures |Digits(n)| > 0 && AllDigits(Digits(n)) && Value(Digits(n)) == n
  {
    if n >= 10 {
      DigitsLaw(n / 10);
      var s := Digits(n);
      assert s[..|s| - 1] == Digits(n / 10);
    } else {
      assert Digits(n)[..0] == [];
    }
  }

  function Pow10(k: nat): nat {
    if k == 0 then 1 else 10 * Pow10(k - 1)
  }

  lemma Pow10Values()
    ensures Pow10(2) == 100 && Pow10(7) == 10_000_000 && Pow10(9) == 1_000_000_000
  {
  }

  lemma {:induction false} ValueBound(s: string)
    requires AllDigits(s)
    ensures Value(s) < Pow10(|s|)
  {
    if s != [] {
      ValueBound(s[..|s| - 1]);
    }
  }

  lemma {:induction false} ValueConcat(a: string, b: string)
    requires AllDigits(a) && AllDigits(b)
    ensures AllDigits(a + b) && Value(a + b) == Value(a) * Pow10(|b|) + Value(b)
    decreases |b|
  {
    if b == [] {
      assert a + b == a;
    } else {
      var c := b[..|b| - 1];
      ValueConcat(a, c);
      assert (a + b)[..|a + b| - 1] == a + c;
      assert Value(a) * Pow10(|b|) == 10 * (Value(a) * Pow10(|c|));
    }
  }

  /** A text of digits has as many as the number needs. */
  lemma {:induction false} DigitsLength(n: nat, k: nat)
    requires k > 0
    ensures |Digits(n)| <= k <==> n < Pow10(k)
    decreases k
  {
    if n >= 10 {
      if k > 1 {
        DigitsLength(n / 10, k - 1);
      } else {
        DigitsLaw(n / 10);
      }
    } else {
      assert Pow10(k) >= 10 by { Pow10AtLeast(k); }
    }
  }

  lemma {:induction false} Pow10AtLeast(k: nat)
    requires k > 0
    ensures Pow10(k) >= 10
  {
    if k > 1 {
      Pow10AtLeast(k - 1);
    }
  }

  // ----- padding and trimming -----

  function Zeros(k: nat): (z: string)
    ensures |z| == k && AllDigits(z) && forall i | 0 <= i < k :: z[i] == '0'
  {
    seq(k, _ => '0')
  }

  lemma {:induction false} ZerosValue(k: nat)
    ensures Value(Zeros(k)) == 0
  {
    if k > 0 {
      ZerosValue(k - 1);
      assert Zeros(k)[..k - 1] == Zeros(k - 1);
    }
  }

  /** At least `width` digits, filled up with zeros on the left. */
  function PadLeft(n: nat, width: nat): string {
    var d := Digits(n);
    if |d| >= width then d else Zeros(width - |d|) + d
  }

  function PadRight(s: string, width: nat): string {
    if |s| >= width then s else s + Zeros(width - |s|)
  }

  function TrimEnd(s: string): (t: string)
    ensures |t| <= |s| && t == s[..|t|]
    ensures forall i | |t| <= i < |s| :: s[i] == '0'
    ensures t != [] ==> t[|t| - 1] != '0'
  {
    if s != [] && s[|s| - 1] == '0' then TrimEnd(s[..|s| - 1]) else s
  }

  lemma PadLeftLaw(n: nat, width: nat)
    ensures var s := PadLeft(n, width);
            && AllDigits(s) && Value(s) == n && |s| >= width
            && (width > 0 && n < Pow10(width) ==> |s| == width)
            && (width > 0 && n >= Pow10(width) ==> |s| > width)
  {
    DigitsLaw(n);
    if width > 0 {
      DigitsLength(n, width);
    }
    var d := Digits(n);
    if |d| < width {
      ZerosValue(width - |d|);
      ValueConcat(Zeros(width - |d|), d);
    }
  }

  /** Filling up again what trimming removed. */
  lemma PadTrim(s: string)
    ensures PadRight(TrimEnd(s), |s|) == s
  {
  }

  lemma TrimKeepsDigits(s: string)
    requires AllDigits(s)
    ensures AllDigits(TrimEnd(s))
    ensures Value(s) > 0 ==> TrimEnd(s) != []
  {
  }

  // ----- runs of characters -----

  /** The end of the run of digits, and also of points if asked, that starts at `i`. */
  function RunEnd(s: string, i: nat, points: bool := false): (e: nat)
    requires i <= |s|
    ensures i <= e <= |s|
    ensures forall j | i <= j < e :: InRun(s[j], points)
    ensures e < |s| ==> !InRun(s[e], points)
    decreases |s| - i
  {
    if i < |s| && InRun(s[i], points) then RunEnd(s, i + 1, points) else i
  }

  predicate InRun(c: char, points: bool) {
    IsDigit(c) || (points && c == '.')
  }

  /** Index of the first occurrence from `i` on, or the length if there is none. */
  function IndexOf(s: string, c: char, i: nat := 0): (k: nat)
    requires i <= |s|
    ensures i <= k <= |s|
    ensures k < |s| ==> s[k] == c
    ensures forall j | i <= j < k :: s[j] != c
    decreases |s| - i
  {
    if i == |s| || s[i] == c then i else IndexOf(s, c, i + 1)
  }

  lemma ConcatAssociates(a: string, b: string, c: string)
    ensures a + b + c == a + (b + c)
  {
  }

  /** The first point of a text. */
  lemma PointIndex(prefix: string, rest: string)
    requires '.' !in prefix
    ensures IndexOf(prefix + "." + rest, '.') == |prefix|
  {
    var value := prefix + "." + rest;
    assert value[|prefix|] == '.';
    assert forall j | 0 <= j < |prefix| :: value[j] == prefix[j];
  }

  /** The middle part of a text. */
  lemma SliceOut(a: string, b: string, c: string)
    ensures (a + b + c)[|a|..|a| + |b|] == b
    ensures c != [] ==> (a + b + c)[|a| + |b|] == c[0]
  {
  }
}
