/** The doubling delay of the polling loop, in the 64-bit nanoseconds of time.Duration
    (client/sd/instancer/consul_instancer.go). */
module Backoff {
  import opened Decimal

  const INITIAL_DELAY: int := 10_000_000

  /** d *= 2 on a 64-bit integer: a result outside the range wraps around once. */
  function Doubled(d: int): int {
    if 2 * d >= INT_BOUND then 2 * d - 2 * INT_BOUND
    else if 2 * d < -INT_BOUND then 2 * d + 2 * INT_BOUND
    else 2 * d
  }

  /** Two's complement reading of any integer. */
  function Wrap(n: int): int {
    (n + INT_BOUND) % (2 * INT_BOUND) - INT_BOUND
  }

  function Pow2(k: nat): nat {
    if k == 0 then 1 else 2 * Pow2(k - 1)
  }

  /** The delay the loop holds after k failures in a row. */
  function DelayAfter(k: nat): int {
    if k == 0 then INITIAL_DELAY else Doubled(DelayAfter(k - 1))
  }

  /** time.Sleep returns at once unless its argument is positive. */
  function Slept(d: int): nat {
    if d > 0 then d else 0
  }

  /** The time slept during them. */
  function SleptAfter(k: nat): nat {
    if k == 0 then 0 else SleptAfter(k - 1) + Slept(DelayAfter(k - 1))
  }

  lemma {:induction false} Pow2Grows(k: nat, n: nat)
    requires k <= n
    ensures Pow2(k) <= Pow2(n)
    decreases n
  {
    if k == n {
    } else {
      Pow2Grows(k, n - 1);
    }
  }

  lemma {:induction false} Pow2Sum(i: nat, j: nat)
    ensures Pow2(i + j) == Pow2(i) * Pow2(j)
  {
    if i == 0 {
    } else {
      Pow2Sum(i - 1, j);
    }
  }

  lemma Powers()
    ensures Pow2(39) == 549_755_813_888
    ensures Pow2(40) == 1_099_511_627_776
    ensures Pow2(57) == 144_115_188_075_855_872
  {
    assert Pow2(5) == 32;
    Pow2Sum(5, 5);
    Pow2Sum(10, 10);
    Pow2Sum(20, 20);
    Pow2Sum(10, 5);
    Pow2Sum(15, 2);
    Pow2Sum(40, 17);
  }

  lemma {:induction false} ExactUpTo(k: nat)
    requires k <= 39
    ensures DelayAfter(k) == INITIAL_DELAY * Pow2(k)
    ensures SleptAfter(k) == DelayAfter(k) - INITIAL_DELAY
  {
    if k == 0 {
    } else {
      ExactUpTo(k - 1);
      Pow2Grows(k, 39);
      Powers();
    }
  }

  lemma {:induction false} DelayIsInt64(k: nat)
    ensures IsInt64(DelayAfter(k))
  {
    if k == 0 {
    } else {
      DelayIsInt64(k - 1);
    }
  }

  /** The delay is ten milliseconds times two to the number of failures for exactly the first 39
      failures of a streak; up to there the time slept is that delay less ten milliseconds. */
  lemma DoublesIff(k: nat)
    ensures DelayAfter(k) == 10_000_000 * Pow2(k) <==> k <= 39
    ensures k <= 39 ==> SleptAfter(k) == 10_000_000 * Pow2(k) - 10_000_000
  {
    if k <= 39 {
      ExactUpTo(k);
    } else {
      Pow2Grows(40, k);
      Powers();
      DelayIsInt64(k);
    }
  }

  lemma {:induction false} WrapOf(k: nat)
    ensures DelayAfter(k) == Wrap(INITIAL_DELAY * Pow2(k))
  {
    if k == 0 {
    } else {
      WrapOf(k - 1);
      var n := INITIAL_DELAY * Pow2(k - 1);
      WrapTwice(n);
      assert INITIAL_DELAY * Pow2(k) == 2 * n;
    }
  }

  /** For every k the delay is that product up to whole turns of two to the 64, in the range of a
      signed 64-bit integer. */
  lemma WrapExact(k: nat)
    ensures -0x8000_0000_0000_0000 <= DelayAfter(k) < 0x8000_0000_0000_0000
    ensures exists q: int :: DelayAfter(k) == 10_000_000 * Pow2(k) - q * 0x1_0000_0000_0000_0000
  {
    WrapOf(k);
    var n := INITIAL_DELAY * Pow2(k);
    var q := (n + INT_BOUND) / (2 * INT_BOUND);
    assert Wrap(n) == n - q * (2 * INT_BOUND);
  }

  lemma WrapTwice(n: int)
    ensures Doubled(Wrap(n)) == Wrap(2 * n)
  {
    var m := 2 * INT_BOUND;
    var q := (n + INT_BOUND) / m;
    var w := Wrap(n);
    assert w == n - q * m && IsInt64(w);
    ModShift(2 * n + INT_BOUND, 2 * q, m);
    assert 2 * w + INT_BOUND == (2 * n + INT_BOUND) - (2 * q) * m;
    WrapOnce(2 * w);
  }

  lemma WrapOnce(n: int)
    requires -2 * INT_BOUND <= n < 2 * INT_BOUND
    ensures Wrap(n) == if n >= INT_BOUND then n - 2 * INT_BOUND else if n < -INT_BOUND then n + 2 * INT_BOUND else n
  {
  }

  lemma ModShift(x: int, j: int, m: int)
    requires m > 0
    ensures (x - j * m) % m == x % m
  {
    var q, r := x / m, x % m;
    assert x - j * m == (q - j) * m + r;
    ModUnique(x - j * m, q - j, r, m);
  }

  lemma ModUnique(x: int, q: int, r: int, m: int)
    requires m > 0 && 0 <= r < m && x == q * m + r
    ensures x % m == r
  {
    var q', r' := x / m, x % m;
    assert (q - q') * m == r' - r;
    if q > q' { MulAtLeast(q - q', m); }
    if q < q' { MulAtLeast(q' - q, m); }
  }

  lemma MulAtLeast(d: int, m: int)
    requires d >= 1 && m > 0
    ensures d * m >= m
  {
  }

  lemma {:induction false} ZeroAt(k: nat)
    requires k == 57
    ensures DelayAfter(k) == 0
  {
    WrapOf(k);
    Powers();
    WholeTurns(INITIAL_DELAY * Pow2(k), 78125);
  }

  lemma WholeTurns(n: int, turns: int)
    requires n == turns * (2 * INT_BOUND)
    ensures Wrap(n) == 0
  {
    ModUnique(n + INT_BOUND, turns, INT_BOUND, 2 * INT_BOUND);
  }

  /** From the 57th failure on the delay is zero and nothing more is slept: the loop no longer
      waits at all. */
  lemma {:induction false} CollapsesToZero(k: nat)
    requires k >= 57
    ensures DelayAfter(k) == 0
    ensures SleptAfter(k + 1) == SleptAfter(k)
  {
    if k == 57 {
      ZeroAt(k);
    } else {
      CollapsesToZero(k - 1);
    }
  }

  /** Seventeen failures from this delay on. */
  lemma WrappedDelays(ds: seq<int>, ts: seq<int>)
    requires |ds| == 18 && |ts| == 18
    requires ds[0] == 5_497_558_138_880_000_000 && ts[0] == 5_497_558_138_870_000_000
    requires forall i :: 0 <= i < 17 ==> ds[i + 1] == Doubled(ds[i]) && ts[i + 1] == ts[i] + Slept(ds[i])
    ensures ds[17] == -9_223_372_036_854_775_808 && ts[17] == 52_948_117_131_543_144_832
  {
    assert ds[1] == -7_451_627_795_949_551_616 && ts[1] == 10_995_116_277_750_000_000;
    assert ds[2] == 3_543_488_481_810_448_384 && ts[2] == 10_995_116_277_750_000_000;
    assert ds[3] == 7_086_976_963_620_896_768 && ts[3] == 14_538_604_759_560_448_384;
    assert ds[4] == -4_272_790_146_467_758_080 && ts[4] == 21_625_581_723_181_345_152;
    assert ds[5] == -8_545_580_292_935_516_160 && ts[5] == 21_625_581_723_181_345_152;
    assert ds[6] == 1_355_583_487_838_519_296 && ts[6] == 21_625_581_723_181_345_152;
    assert ds[7] == 2_711_166_975_677_038_592 && ts[7] == 22_981_165_211_019_864_448;
    assert ds[8] == 5_422_333_951_354_077_184 && ts[8] == 25_692_332_186_696_903_040;
    assert ds[9] == -7_602_076_171_001_397_248 && ts[9] == 31_114_666_138_050_980_224;
    assert ds[10] == 3_242_591_731_706_757_120 && ts[10] == 31_114_666_138_050_980_224;
    assert ds[11] == 6_485_183_463_413_514_240 && ts[11] == 34_357_257_869_757_737_344;
    assert ds[12] == -5_476_377_146_882_523_136 && ts[12] == 40_842_441_333_171_251_584;
    assert ds[13] == 7_493_989_779_944_505_344 && ts[13] == 40_842_441_333_171_251_584;
    assert ds[14] == -3_458_764_513_820_540_928 && ts[14] == 48_336_431_113_115_756_928;
    assert ds[15] == -6_917_529_027_641_081_856 && ts[15] == 48_336_431_113_115_756_928;
    assert ds[16] == 4_611_686_018_427_387_904 && ts[16] == 48_336_431_113_115_756_928;
    assert ds[17] == -9_223_372_036_854_775_808 && ts[17] == 52_948_117_131_543_144_832;
  }

  /** The delays and the times slept from the k-th failure on. */
  lemma FromFailure(k: nat, n: nat) returns (ds: seq<int>, ts: seq<int>)
    ensures |ds| == n + 1 && |ts| == n + 1
    ensures ds[0] == DelayAfter(k) && ts[0] == SleptAfter(k)
    ensures ds[n] == DelayAfter(k + n) && ts[n] == SleptAfter(k + n)
    ensures forall i :: 0 <= i < n ==> ds[i + 1] == Doubled(ds[i]) && ts[i + 1] == ts[i] + Slept(ds[i])
  {
    ds := seq(n + 1, i requires i >= 0 => DelayAfter(k + i));
    ts := seq(n + 1, i requires i >= 0 => SleptAfter(k + i));
    forall i | 0 <= i < n ensures ds[i + 1] == Doubled(ds[i]) && ts[i + 1] == ts[i] + Slept(ds[i]) {
      OneFailure(k + i);
    }
  }

  lemma OneFailure(k: nat)
    ensures DelayAfter(k + 1) == Doubled(DelayAfter(k))
    ensures SleptAfter(k + 1) == SleptAfter(k) + Slept(DelayAfter(k))
  {
  }

  lemma SleptBy56(k: nat)
    requires k == 56
    ensures DelayAfter(k) == -9_223_372_036_854_775_808 && SleptAfter(k) == 52_948_117_131_543_144_832
  {
    SleptBy39(k - 17);
    var ds, ts := FromFailure(k - 17, 17);
    WrappedDelays(ds, ts);
  }

  lemma SleptBy39(k: nat)
    requires k == 39
    ensures DelayAfter(k) == 5_497_558_138_880_000_000 && SleptAfter(k) == 5_497_558_138_870_000_000
  {
    ExactUpTo(k);
    Powers();
  }

  lemma {:induction false} SleptGrows(k: nat, n: nat)
    requires k <= n
    ensures SleptAfter(k) <= SleptAfter(n)
    decreases n
  {
    if k == n {
    } else {
      SleptGrows(k, n - 1);
    }
  }

  lemma SleptUpTo56(k: nat, last: nat)
    requires k <= last == 56
    ensures SleptAfter(k) <= 52_948_117_131_543_144_832
    ensures k == last ==> SleptAfter(k) == 52_948_117_131_543_144_832
  {
    SleptBy56(last);
    SleptGrows(k, last);
  }

  /** No streak of failures ever sleeps longer than this in all, and one of 56 or more sleeps just
      as long: the negative delays after the 39th failure do not wait. */
  lemma {:induction false} SleepIsBounded(k: nat)
    ensures SleptAfter(k) <= 52_948_117_131_543_144_832
    ensures k >= 56 ==> SleptAfter(k) == 52_948_117_131_543_144_832
  {
    if k <= 56 {
      SleptUpTo56(k, 56);
    } else {
      SleepIsBounded(k - 1);
      NoMoreSleep(k - 1);
    }
  }

  lemma {:induction false} NoMoreSleep(k: nat)
    requires k >= 56
    ensures Slept(DelayAfter(k)) == 0
  {
    if k == 56 {
      SleptBy56(k);
    } else {
      CollapsesToZero(k);
    }
  }
}
