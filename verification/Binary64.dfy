/**
 Double-precision numbers as reals. `double.Parse` and a product of doubles are each correctly
 rounded, which is all that the round trip of durations needs to know about them.
 */
module Binary64 {

  /** Rounding of a non-negative real to a double. */
  type Rounding = real -> real

  const TWO52: real := 4503599627370496.0
  const TWO53: real := 9007199254740992.0

  ghost predicate Near(round: Rounding, x: real) {
    -(x / TWO53) <= round(x) - x <= x / TWO53
  }

  /** Half a unit in the last place at most, and whole numbers of up to 53 bits are kept. */
  ghost predicate CorrectlyRounded(round: Rounding) {
    && (forall x: real {:trigger Near(round, x)} | 0.000_000_000_5 <= x < TWO53 :: Near(round, x))
    && (forall n: nat | n as real <= TWO53 :: Keeps(round, n))
  }

  predicate Keeps(round: Rounding, n: nat) {
    round(n as real) == n as real
  }

  /** Rounding twice, as the seconds and then as their product with a thousand million. */
  function NanosOf(round: Rounding, seconds: real): int {
    round(round(seconds) * 1_000_000_000.0).Floor
  }

  /** The nanoseconds read for a printed number of seconds are right or one too few. */
  lemma NanosWithinOne(round: Rounding, nanos: nat)
    requires CorrectlyRounded(round) && 1 <= nanos < 0x10_0000_0000_0000
    ensures var n := NanosOf(round, nanos as real / 1_000_000_000.0);
            (n == nanos || n == nanos - 1)
            && (n == nanos <==> round(round(nanos as real / 1_000_000_000.0) * 1_000_000_000.0) >= nanos as real)
  {
    var v := nanos as real / 1_000_000_000.0;
    var a := round(v);
    assert Near(round, v);
    var p := a * 1_000_000_000.0;
    var q := round(p);
    assert nanos as real - nanos as real / TWO53 <= p <= nanos as real + nanos as real / TWO53;
    assert Near(round, p);
  }

  lemma WholeSecondsExact(round: Rounding, seconds: nat)
    requires CorrectlyRounded(round) && seconds * 1_000_000_000 < 0x10_0000_0000_0000
    ensures NanosOf(round, seconds as real) == seconds * 1_000_000_000
  {
    var n := seconds * 1_000_000_000;
    assert Keeps(round, seconds) && Keeps(round, n);
    assert seconds as real * 1_000_000_000.0 == n as real;
  }

  // ----- round to nearest, ties to even, with 53 bits -----

  function NearestEven(x: real): int
    requires x >= 0.0
  {
    var f := x.Floor;
    var r := x - f as real;
    if r < 0.5 || (r == 0.5 && f % 2 == 0) then f else f + 1
  }

  /** Doubles the number until it has 53 bits before the point, rounds, and halves back. */
  function RoundSmall(x: real): real
    requires 0.0 < x < TWO53
    decreases (TWO52 / x).Floor
  {
    if x >= TWO52 then NearestEven(x) as real
    else
      FewerDoublings(x);
      RoundSmall(2.0 * x) / 2.0
  }

  lemma FewerDoublings(x: real)
    requires 0.0 < x < TWO52
    ensures 0 <= (TWO52 / (2.0 * x)).Floor < (TWO52 / x).Floor
  {
    var y := TWO52 / x;
    assert y > 1.0;
    assert y * x == TWO52;
    assert TWO52 / (2.0 * x) == y / 2.0;
  }

  function RoundLarge(x: real): real
    requires x >= TWO52
    decreases x.Floor
  {
    if x < TWO53 then NearestEven(x) as real else 2.0 * RoundLarge(x / 2.0)
  }

  function Round53(x: real): real {
    if x <= 0.0 then x else if x < TWO53 then RoundSmall(x) else RoundLarge(x)
  }

  lemma {:induction false} RoundSmallNear(x: real)
    requires 0.0 < x < TWO53
    ensures -(x / TWO53) <= RoundSmall(x) - x <= x / TWO53
    ensures x.Floor as real == x ==> RoundSmall(x) == x
    decreases (TWO52 / x).Floor
  {
    if x < TWO52 {
      FewerDoublings(x);
      RoundSmallNear(2.0 * x);
      if x.Floor as real == x {
        assert (2 * x.Floor) as real == 2.0 * x;
      }
    }
  }

  /** The rounding of the IEEE 754 format is correct in the sense used above. */
  lemma Round53IsCorrect()
    ensures CorrectlyRounded(Round53)
  {
    forall x: real | 0.000_000_000_5 <= x < TWO53 ensures Near(Round53, x) {
      RoundSmallNear(x);
    }
    forall n: nat | n as real <= TWO53 ensures Keeps(Round53, n) {
      if 0 < n && n as real < TWO53 {
        RoundSmallNear(n as real);
      } else if n as real == TWO53 {
        assert RoundLarge(TWO53) == 2.0 * RoundLarge(TWO52);
      }
    }
  }

  // ----- doubling -----

  lemma DoubledOnce(x: real)
    requires 0.0 < x < TWO52
    ensures RoundSmall(x) == RoundSmall(2.0 * x) / 2.0
  {
  }

  /** Ten doublings at once. */
  lemma DoubledTenTimes(x: real)
    requires 0.0 < x && 1024.0 * x < TWO53
    ensures RoundSmall(x) == RoundSmall(1024.0 * x) / 1024.0
  {
    DoubledOnce(x);
    DoubledOnce(2.0 * x);
    DoubledOnce(4.0 * x);
    DoubledOnce(8.0 * x);
    DoubledOnce(16.0 * x);
    DoubledOnce(32.0 * x);
    DoubledOnce(64.0 * x);
    DoubledOnce(128.0 * x);
    DoubledOnce(256.0 * x);
    DoubledOnce(512.0 * x);
  }
}
