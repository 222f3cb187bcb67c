/** Tier widths, retention windows and the bucket arithmetic of the history store. */
module Buckets {

  /** Tier widths in seconds; the width of a tier is also its name in the table. */
  const RAW := 15
  const FIVE_MIN := 300
  const HOUR := 3600

  const RAW_RETENTION := 172_800
  const FIVE_MIN_RETENTION := 2_592_000
  const HOUR_RETENTION := 15_552_000

  datatype Option<+T> = None | Some(value: T)

  function Min(a: int, b: int): int {
    if a <= b then a else b
  }

  function Max(a: int, b: int): int {
    if a >= b then a else b
  }

  predicate Aligned(t: int, width: int)
    requires width > 0
  {
    t % width == 0
  }

  /** The boundary at or below `t`. SQL's `/` truncates, which is the same thing for the
      non-negative timestamps a rollup selects. */
  function Bucket(t: int, width: int): (b: int)
    requires width > 0
    ensures Aligned(b, width) && b <= t < b + width
  {
    MultipleOf(t / width, 0, width);
    t / width * width
  }

  lemma Distribute(a: int, b: int, width: int)
    ensures (a - b) * width == a * width - b * width
  {
  }

  lemma AtLeastOneWidth(k: int, width: int)
    requires width > 0 && k >= 1
    ensures k * width >= width
  {
  }

  lemma SameQuotient(a: int, b: int, r: int, s: int, width: int)
    requires 0 <= r < width && 0 <= s < width
    requires a * width + r == b * width + s
    ensures a == b && r == s
  {
    if a > b {
      AtLeastOneWidth(a - b, width);
      Distribute(a, b, width);
    } else if b > a {
      AtLeastOneWidth(b - a, width);
      Distribute(b, a, width);
    }
  }

  lemma MultipleOf(k: int, r: int, width: int)
    requires 0 <= r < width
    ensures (k * width + r) / width == k && (k * width + r) % width == r
  {
    var t := k * width + r;
    SameQuotient(k, t / width, r, t % width, width);
  }

  lemma QuotientOf(t: int, width: int) returns (k: int)
    requires width > 0 && Aligned(t, width)
    ensures t == k * width
  {
    k := t / width;
  }

  lemma OrderedMultiples(i: int, j: int, width: int)
    requires width > 0 && i * width < j * width
    ensures i * width + width <= j * width
  {
    if i < j {
      AtLeastOneWidth(j - i, width);
      Distribute(j, i, width);
    } else if j < i {
      AtLeastOneWidth(i - j, width);
      Distribute(i, j, width);
    }
  }

  /** Distinct boundaries are at least a width apart. */
  lemma BoundariesApart(a: int, b: int, width: int)
    requires width > 0 && Aligned(a, width) && Aligned(b, width) && a < b
    ensures a + width <= b && Aligned(b - width, width)
  {
    var i := QuotientOf(a, width);
    var j := QuotientOf(b, width);
    OrderedMultiples(i, j, width);
    Distribute(j, 1, width);
    MultipleOf(j - 1, 0, width);
  }

  /** Hour boundaries are five-minute boundaries. */
  lemma HourIsTwelve(h: int)
    requires Aligned(h, HOUR)
    ensures Aligned(h, FIVE_MIN) && Aligned(h + HOUR, FIVE_MIN)
  {
    var k := QuotientOf(h, HOUR);
    MultipleOf(12 * k, 0, FIVE_MIN);
    MultipleOf(12 * k + 12, 0, FIVE_MIN);
  }

  lemma BucketUnique(t: int, b: int, width: int)
    requires width > 0 && Aligned(b, width) && b <= t < b + width
    ensures Bucket(t, width) == b
  {
    var c := Bucket(t, width);
    if b < c {
      BoundariesApart(b, c, width);
    } else if c < b {
      BoundariesApart(c, b, width);
    }
  }

  /** The rounding the compactor applies to its lower bounds: up to a boundary, never below 0. */
  function CeilBucket(t: int, width: int): (r: int)
    requires width > 0
    ensures 0 <= r && t <= r && Aligned(r, width)
    ensures forall b :: 0 <= b && t <= b && Aligned(b, width) ==> r <= b
  {
    if t <= 0 then
      0
    else
      var r := (t + width - 1) / width * width;
      assert r == Bucket(t + width - 1, width);
      assert forall b :: 0 <= b && t <= b && Aligned(b, width) ==> r <= b by {
        forall b | 0 <= b && t <= b && Aligned(b, width)
          ensures r <= b
        {
          if b < r {
            BoundariesApart(b, r, width);
          }
        }
      }
      r
  }

  /** Lowest raw timestamp a compaction at `now` rolls up, given the previous compaction. */
  function Lo5(last: Option<int>, now: int): (lo: int)
    ensures 0 <= lo && now - RAW_RETENTION <= lo && Aligned(lo, FIVE_MIN)
  {
    CeilBucket(Max(Min(LastOrZero(last), now - 2 * FIVE_MIN), now - RAW_RETENTION), FIVE_MIN)
  }

  /** Lowest five-minute timestamp a compaction at `now` rolls up. */
  function Lo60(last: Option<int>, now: int): (lo: int)
    ensures 0 <= lo && now - FIVE_MIN_RETENTION <= lo && Aligned(lo, HOUR)
  {
    CeilBucket(Max(Min(LastOrZero(last), now - 2 * HOUR), now - FIVE_MIN_RETENTION), HOUR)
  }

  /** A database that was never compacted reads its mark as 0. */
  function LastOrZero(last: Option<int>): int {
    if last.Some? then last.value else 0
  }

  predicate IsValidRes(res: int) {
    res == RAW || res == FIVE_MIN || res == HOUR
  }

  function Retention(res: int): int
    requires IsValidRes(res)
  {
    if res == RAW then RAW_RETENTION else if res == FIVE_MIN then FIVE_MIN_RETENTION else HOUR_RETENTION
  }

  function PickRes(span: int): (res: int)
    ensures IsValidRes(res)
  {
    if span <= 3600 then RAW else if span <= 86_400 then FIVE_MIN else HOUR
  }
}
