/**
 * Millisecond timestamps and `java.time.Instant` values, with the two
 * conversions a rounding context uses between them.
 */
module Instants {

  const MillisPerSecond: int := 1000
  const NanosPerMilli: int := 1_000_000
  const NanosPerSecond: int := 1_000_000_000

  function Abs(x: int): nat {
    if x < 0 then -x else x
  }

  /** Java's integer `/`: the quotient is truncated toward zero. */
  function TruncDiv(x: int, y: int): int
    requires y != 0
  {
    var q := Abs(x) / Abs(y);
    if (x < 0) == (y < 0) then q else -q
  }

  /**
   * `Math.floorDiv` as the JDK computes it: truncate, then step down once
   * when the operands' signs differ and the division was inexact.
   */
  function FloorDiv(x: int, y: int): int
    requires y != 0
  {
    var q := TruncDiv(x, y);
    if (x < 0) != (y < 0) && q * y != x then q - 1 else q
  }

  /** `Math.floorMod`: the remainder that goes with `FloorDiv`. */
  function FloorMod(x: int, y: int): int
    requires y != 0
  {
    x - FloorDiv(x, y) * y
  }

  /** For a positive divisor the JDK's floor division is Dafny's Euclidean division. */
  lemma FloorDivIsEuclidean(x: int, y: int)
    requires y > 0
    ensures FloorDiv(x, y) == x / y
    ensures FloorMod(x, y) == x % y
  {
    var a := Abs(x);
    var t := a / y;
    assert a == t * y + a % y;
    var q := FloorDiv(x, y);
    if x >= 0 {
      assert q == t;
      assert q * y <= x < q * y + y;
    } else if a % y == 0 {
      assert TruncDiv(x, y) == -t;
      assert -t * y == x;
      assert q == -t;
      assert q * y <= x < q * y + y;
    } else {
      assert TruncDiv(x, y) == -t;
      assert -t * y == -(t * y);
      assert -t * y != x;
      assert q == -t - 1;
      assert q * y == -(t * y) - y;
      assert q * y <= x < q * y + y;
    }
    UniqueQuotient(x, y, q);
  }

  /** Only one integer `q` has `q * y <= x < q * y + y`. */
  lemma UniqueQuotient(x: int, y: int, q: int)
    requires y > 0
    requires q * y <= x < q * y + y
    ensures q == x / y
  {
    var e := x / y;
    assert e * y <= x < e * y + y;
    if q < e {
      assert (e - q) * y >= y by { MulAtLeast(e - q, y); }
      assert false;
    } else if q > e {
      assert (q - e) * y >= y by { MulAtLeast(q - e, y); }
      assert false;
    }
  }

  lemma MulAtLeast(k: int, y: int)
    requires k >= 1 && y > 0
    ensures k * y >= y
  {
  }

  /**
   * A point on the time line: seconds since the epoch plus a
   * nanosecond-of-second adjustment, as `java.time.Instant` stores it.
   */
  datatype Instant = Instant(seconds: int, nanos: int)

  /** The representation invariant `java.time.Instant` keeps. */
  predicate Valid(i: Instant) {
    0 <= i.nanos < NanosPerSecond
  }

  /**
   * Instants whose nanosecond adjustment is in range, as in
   * `java.time.Instant`; the bound on the seconds is not imposed.
   */
  type ValidInstant = i: Instant | Valid(i) witness Instant(0, 0)

  /** The instant carries no information finer than one millisecond. */
  predicate MillisecondResolution(i: Instant) {
    i.nanos % NanosPerMilli == 0
  }

  /** `ChronoField.MILLI_OF_SECOND` read from an instant. */
  function MilliOfSecond(i: Instant): (m: int)
    requires Valid(i)
    ensures 0 <= m < MillisPerSecond
    ensures m * NanosPerMilli <= i.nanos < m * NanosPerMilli + NanosPerMilli
  {
    i.nanos / NanosPerMilli
  }

  /**
   * Epoch milliseconds of an instant: `INSTANT_SECONDS * 1000 + MILLI_OF_SECOND`.
   * Any sub-millisecond part is dropped.
   */
  function ToEpochMilli(i: Instant): (ms: int)
    requires Valid(i)
    ensures i.seconds * MillisPerSecond <= ms < i.seconds * MillisPerSecond + MillisPerSecond
    ensures ms * NanosPerMilli <= i.seconds * NanosPerSecond + i.nanos < ms * NanosPerMilli + NanosPerMilli
    ensures MillisecondResolution(i) ==> ms * NanosPerMilli == i.seconds * NanosPerSecond + i.nanos
  {
    i.seconds * MillisPerSecond + MilliOfSecond(i)
  }

  /**
   * `Instant.ofEpochMilli`: floor-divide by 1000 for the seconds and use the
   * floor remainder, scaled to nanoseconds, for the adjustment.
   */
  function OfEpochMilli(ms: int): (i: Instant)
    ensures Valid(i) && MillisecondResolution(i)
  {
    FloorDivIsEuclidean(ms, MillisPerSecond);
    Instant(FloorDiv(ms, MillisPerSecond), FloorMod(ms, MillisPerSecond) * NanosPerMilli)
  }

  /** Every millisecond count survives the trip through an instant exactly. */
  lemma MillisRoundTrip(ms: int)
    ensures ToEpochMilli(OfEpochMilli(ms)) == ms
  {
    FloorDivIsEuclidean(ms, MillisPerSecond);
    var i := OfEpochMilli(ms);
    assert i.nanos == (ms % 1000) * NanosPerMilli;
    assert MilliOfSecond(i) == ms % 1000;
  }

  /**
   * An instant survives the trip through epoch milliseconds exactly when it
   * has millisecond resolution; otherwise its sub-millisecond part is lost.
   */
  lemma InstantRoundTrip(i: Instant)
    requires Valid(i)
    ensures OfEpochMilli(ToEpochMilli(i)) == i <==> MillisecondResolution(i)
  {
    var ms := ToEpochMilli(i);
    var m := MilliOfSecond(i);
    FloorDivIsEuclidean(ms, MillisPerSecond);
    UniqueQuotient(ms, MillisPerSecond, i.seconds);
    assert ms % 1000 == m;
    var j := OfEpochMilli(ms);
    assert j.seconds == i.seconds;
    assert j.nanos == m * NanosPerMilli;
    if MillisecondResolution(i) {
      assert i.nanos == m * NanosPerMilli;
    } else {
      assert j.nanos != i.nanos;
    }
  }

  /**
   * A sub-millisecond part is truncated, also before the epoch: 1.5 ms after
   * the epoch gives 1, and 0.5 ms before it gives -1.
   */
  lemma SubMillisecondTruncated()
    ensures ToEpochMilli(Instant(0, 1_500_000)) == 1
    ensures ToEpochMilli(Instant(-1, 999_500_000)) == -1
  {
  }

  /** Worked examples of `ofEpochMilli`, including a negative count that shows floor semantics. */
  lemma MillisRoundTripExamples()
    ensures OfEpochMilli(0) == Instant(0, 0)
    ensures OfEpochMilli(1) == Instant(0, 1_000_000)
    ensures OfEpochMilli(1700000000000) == Instant(1700000000, 0)
    ensures OfEpochMilli(-1) == Instant(-1, 999_000_000)
    ensures ToEpochMilli(OfEpochMilli(-1)) == -1
  {
    FloorDivIsEuclidean(0, MillisPerSecond);
    FloorDivIsEuclidean(1, MillisPerSecond);
    FloorDivIsEuclidean(1700000000000, MillisPerSecond);
    FloorDivIsEuclidean(-1, MillisPerSecond);
    MillisRoundTrip(-1);
  }
}
