/**
 Which nanoseconds are lost when a decimal number of seconds is parsed as a double of the
 IEEE 754 format and multiplied by a thousand million: a test on whole numbers.
 */
module NanosecondLoss {
  import opened Binary64

  /** The number doubled until it has 53 bits. */
  function Normal(n: nat): (m: nat)
    requires 0 < n < 0x20_0000_0000_0000
    ensures 0x10_0000_0000_0000 <= m < 0x20_0000_0000_0000
    ensures n < 0x10_0000_0000_0000 ==> m % 2 == 0
    decreases 0x20_0000_0000_0000 - n
  {
    if n >= 0x10_0000_0000_0000 then n else Normal(2 * n)
  }

  /**
   The seconds of `m` nanoseconds, 53 bits long, keep 30 more bits below 2^23 and lose nothing
   there. From 2^23 on they keep 29, and are lost if the remainder is rounded away and is more
   than half a unit in the last place of `m`.
   */
  predicate LosesOne(n: nat)
    requires n < 0x10_0000_0000_0000
  {
    n > 0
    && var m := Normal(n);
    m >= 8_388_608_000_000_000 && 268_435_456 < m * 536_870_912 % 1_000_000_000 < 500_000_000
  }

  /** The double read for a number of nanoseconds printed in seconds. */
  function Product(y: real): real {
    Round53(Round53(y / 1_000_000_000.0) * 1_000_000_000.0)
  }

  // ----- doubling changes nothing -----

  lemma RoundDoubles(x: real)
    requires 0.0 < x < TWO52
    ensures Round53(2.0 * x) == 2.0 * Round53(x)
  {
    DoubledOnce(x);
  }

  /** The product before it is rounded is within half a nanosecond. */
  lemma ProductNear(n: nat)
    requires 0 < n < 0x20_0000_0000_0000
    ensures var p := Round53(n as real / 1_000_000_000.0) * 1_000_000_000.0;
            n as real - 1.0 < p < n as real + 1.0 && p > 0.0
  {
    RoundSmallNear(n as real / 1_000_000_000.0);
  }

  lemma ProductDoubles(n: nat)
    requires 0 < n < 0x10_0000_0000_0000
    ensures Product((2 * n) as real) == 2.0 * Product(n as real)
  {
    var v := n as real / 1_000_000_000.0;
    RoundDoubles(v);
    ProductNear(n);
    RoundDoubles(Round53(v) * 1_000_000_000.0);
    assert (2 * n) as real / 1_000_000_000.0 == 2.0 * v;
  }

  lemma {:induction false} ShortWhenNormal(n: nat)
    requires 0 < n < 0x20_0000_0000_0000
    ensures Product(n as real) < n as real <==> Product(Normal(n) as real) < Normal(n) as real
    decreases 0x20_0000_0000_0000 - n
  {
    if n < 0x10_0000_0000_0000 {
      ProductDoubles(n);
      ShortWhenNormal(2 * n);
    }
  }

  // ----- numbers of 53 bits -----

  /** A quotient of whole numbers, rounded. */
  lemma NearestQuotient(z: nat)
    ensures var f, r := z / 1_000_000_000, z % 1_000_000_000;
            NearestEven(z as real / 1_000_000_000.0)
            == if r < 500_000_000 || (r == 500_000_000 && f % 2 == 0) then f else f + 1
  {
    var f, r := z / 1_000_000_000, z % 1_000_000_000;
    var x := z as real / 1_000_000_000.0;
    assert x == f as real + r as real / 1_000_000_000.0;
    assert x.Floor == f;
  }

  /** An even whole number is reached from below exactly from half a unit on. */
  lemma ReachesEven(m: nat, p: real)
    requires m % 2 == 0 && m > 0 && m as real - 1.0 < p
    ensures NearestEven(p) >= m <==> p >= m as real - 0.5
  {
  }

  lemma DoubledThirtyTimes(x: real)
    requires 0.0 < x && 1_073_741_824.0 * x < TWO53
    ensures RoundSmall(x) == RoundSmall(1_073_741_824.0 * x) / 1_073_741_824.0
  {
    DoubledTenTimes(x);
    DoubledTenTimes(1024.0 * x);
    DoubledTenTimes(1_048_576.0 * x);
  }

  /** The double nearest to the seconds, in units of its last place. */
  function Mantissa(m: nat): int {
    if m < 8_388_608_000_000_000 then NearestEven((m * 1_073_741_824) as real / 1_000_000_000.0)
    else NearestEven((m * 536_870_912) as real / 1_000_000_000.0)
  }

  function UnitsPerSecond(m: nat): real {
    if m < 8_388_608_000_000_000 then 1_073_741_824.0 else 536_870_912.0
  }

  lemma SecondsRounded(m: nat)
    requires 0x10_0000_0000_0000 <= m < 0x20_0000_0000_0000
    ensures Round53(m as real / 1_000_000_000.0) == Mantissa(m) as real / UnitsPerSecond(m)
  {
    var v := m as real / 1_000_000_000.0;
    if m < 8_388_608_000_000_000 {
      DoubledThirtyTimes(v);
      assert 1_073_741_824.0 * v == (m * 1_073_741_824) as real / 1_000_000_000.0;
    } else {
      DoubledThirtyTimes(v / 2.0);
      DoubledOnce(v / 2.0);
      assert 1_073_741_824.0 * (v / 2.0) == (m * 536_870_912) as real / 1_000_000_000.0;
    }
  }

  /** How far the product is from the number: never too low in the lower half, else by the remainder. */
  lemma ProductBelow(m: nat)
    requires 0x10_0000_0000_0000 <= m < 0x20_0000_0000_0000
    ensures var p := Round53(m as real / 1_000_000_000.0) * 1_000_000_000.0;
            var r := m * 536_870_912 % 1_000_000_000;
            && (m < 8_388_608_000_000_000 ==> p >= m as real - 0.5)
            && (m == 0x10_0000_0000_0000 ==> p >= m as real)
            && (m >= 8_388_608_000_000_000 && r < 500_000_000 ==> p == m as real - r as real / 536_870_912.0)
            && (m >= 8_388_608_000_000_000 && r >= 500_000_000 ==> p >= m as real)
  {
    SecondsRounded(m);
    if m < 8_388_608_000_000_000 {
      NearestQuotient(m * 1_073_741_824);
    } else {
      NearestQuotient(m * 536_870_912);
      NoTie(m);
    }
  }

  /** The remainder is a multiple of 512, which half a thousand million is not. */
  lemma NoTie(m: nat)
    ensures m * 536_870_912 % 1_000_000_000 != 500_000_000
  {
    var z := m * 536_870_912;
    var f := z / 1_000_000_000;
    assert z % 1_000_000_000 == 512 * (m * 1_048_576 - f * 1_953_125);
  }

  lemma NormalShort(m: nat)
    requires 0x10_0000_0000_0000 <= m < 0x20_0000_0000_0000 && m % 2 == 0
    ensures Product(m as real) < m as real <==>
            m >= 8_388_608_000_000_000 && 268_435_456 < m * 536_870_912 % 1_000_000_000 < 500_000_000
  {
    var p := Round53(m as real / 1_000_000_000.0) * 1_000_000_000.0;
    ProductNear(m);
    ProductBelow(m);
    assert TWO52 <= p < TWO53;
    assert Round53(p) == NearestEven(p) as real;
    ReachesEven(m, p);
  }

  /** The product falls short exactly for the numbers that the test names. */
  lemma LossIff(n: nat)
    requires n < 0x10_0000_0000_0000
    ensures Product(n as real) < n as real <==> LosesOne(n)
  {
    if n > 0 {
      ShortWhenNormal(n);
      NormalShort(Normal(n));
    }
  }

  lemma NormalTenTimes(n: nat)
    requires 0 < n && 512 * n < 0x10_0000_0000_0000
    ensures Normal(n) == Normal(1024 * n)
  {
    assert Normal(n) == Normal(2 * n) == Normal(4 * n) == Normal(8 * n) == Normal(16 * n) == Normal(32 * n);
    assert Normal(32 * n) == Normal(64 * n) == Normal(128 * n) == Normal(256 * n) == Normal(512 * n);
  }

  /** An everyday value that is lost. */
  lemma FourPointOneLost()
    ensures LosesOne(4_100_000_000)
  {
    NormalTenTimes(4_100_000_000);
    NormalTenTimes(4_100_000_000 * 1024);
    assert Normal(4_100_000_000) == 2 * (4_100_000_000 * 1024 * 1024);
  }
}
