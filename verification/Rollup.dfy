/** Rows of the history table and the aggregation a rollup performs on them. */
module Rollup {
  import opened Buckets

  type Count = n: int | 1 <= n witness 1

  datatype Row = Row(avg: real, min: real, max: real, n: Count)

  /** One metric at one resolution: timestamp to row. */
  type Column = map<int, Row>

  /** What a GROUP BY accumulates. `Nothing` is the empty group, which yields no row. */
  datatype Total = Nothing | Total(sum: real, min: real, max: real, n: Count)

  /** The row `try_write` inserts for a reading. */
  function RawRow(v: real): Row {
    Row(v, v, v, 1)
  }

  function Weigh(r: Row): Total {
    Total(r.avg * r.n as real, r.min, r.max, r.n)
  }

  function Least(a: real, b: real): real {
    if a <= b then a else b
  }

  function Greatest(a: real, b: real): real {
    if a >= b then a else b
  }

  function Join(a: Total, b: Total): Total {
    if a.Nothing? then b
    else if b.Nothing? then a
    else Total(a.sum + b.sum, Least(a.min, b.min), Greatest(a.max, b.max), a.n + b.n)
  }

  function At(col: Column, t: int): Total {
    if t in col then Weigh(col[t]) else Nothing
  }

  /** Accumulate the rows of `col` stamped in [lo, hi). */
  function Fold(col: Column, lo: int, hi: int): (total: Total)
    ensures total.Nothing? <==> forall t :: lo <= t < hi ==> t !in col
    decreases hi - lo
  {
    if hi <= lo then Nothing else Join(Fold(col, lo, hi - 1), At(col, hi - 1))
  }

  /** `sum(avg*n)/sum(n), min(min), max(max), sum(n)`. */
  function Summary(t: Total): Row
    requires t.Total?
  {
    Row(t.sum / t.n as real, t.min, t.max, t.n)
  }

  lemma WeighSummary(t: Total)
    requires t.Total?
    ensures Weigh(Summary(t)) == t
  {
  }

  lemma {:induction false} FoldSplit(col: Column, lo: int, mid: int, hi: int)
    requires lo <= mid <= hi
    ensures Fold(col, lo, hi) == Join(Fold(col, lo, mid), Fold(col, mid, hi))
    decreases hi - mid
  {
    if mid < hi {
      FoldSplit(col, lo, mid, hi - 1);
    }
  }

  lemma {:induction false} FoldCongruent(a: Column, b: Column, lo: int, hi: int)
    requires forall t :: lo <= t < hi ==> At(a, t) == At(b, t)
    ensures Fold(a, lo, hi) == Fold(b, lo, hi)
    decreases hi - lo
  {
    if lo < hi {
      FoldCongruent(a, b, lo, hi - 1);
    }
  }

  /** A group holding a single row accumulates to that row. */
  lemma {:induction false} FoldSingle(col: Column, b: int, hi: int)
    requires b < hi
    requires forall t :: b < t < hi ==> t !in col
    ensures Fold(col, b, hi) == At(col, b)
    decreases hi - b
  {
    if b + 1 < hi {
      FoldSingle(col, b, hi - 1);
    } else {
      assert Fold(col, b, b) == Nothing;
    }
  }

  /** The aggregate the SQL statement computes for one bucket, straight from `src`. */
  function BucketTotal(src: Column, b: int, width: int): Total {
    Fold(src, b, b + width)
  }

  /** At `t`, `dst` holds the summary of the `src` bucket starting there, or nothing if `t` starts
      no bucket or the bucket is empty. */
  ghost predicate SummarisesAt(dst: Column, src: Column, width: int, t: int)
    requires width > 0
  {
    if t in dst then
      Aligned(t, width) && BucketTotal(src, t, width).Total? && dst[t] == Summary(BucketTotal(src, t, width))
    else
      Aligned(t, width) ==> BucketTotal(src, t, width).Nothing?
  }

  /** `dst` is the `width` tier of the readings in `src`: a row for exactly each non-empty bucket. */
  ghost predicate Summarises(dst: Column, src: Column, width: int)
    requires width > 0
  {
    forall t :: SummarisesAt(dst, src, width, t)
  }

  /** Rolling up a rolled-up tier gives the direct aggregate: the weighted average, the min of
      mins, the max of maxes and the sum of counts compose over any whole number of buckets. */
  lemma {:induction false} TwoLevel(mid: Column, src: Column, width: int, lo: int, hi: int)
    requires width > 0 && Aligned(lo, width) && Aligned(hi, width) && lo <= hi
    requires forall t :: lo <= t < hi ==> SummarisesAt(mid, src, width, t)
    ensures Fold(mid, lo, hi) == Fold(src, lo, hi)
    decreases hi - lo
  {
    if lo < hi {
      BoundariesApart(lo, hi, width);
      var b := hi - width;
      TwoLevel(mid, src, width, lo, b);
      FoldSplit(mid, lo, b, hi);
      FoldSplit(src, lo, b, hi);
      forall t | b < t < hi
        ensures t !in mid
      {
        assert SummarisesAt(mid, src, width, t);
        if t in mid {
          BoundariesApart(b, t, width);
        }
      }
      FoldSingle(mid, b, hi);
      assert SummarisesAt(mid, src, width, b);
      if b in mid {
        WeighSummary(BucketTotal(src, b, width));
      }
    }
  }

  /** Direct raw-to-hour aggregation equals raw to five minutes to one hour, because twelve
      five-minute buckets partition the hour. */
  lemma HourFromFiveMinutes(five: Column, raw: Column, h: int)
    requires Aligned(h, HOUR)
    requires forall t :: h <= t < h + HOUR ==> SummarisesAt(five, raw, FIVE_MIN, t)
    ensures BucketTotal(five, h, HOUR) == BucketTotal(raw, h, HOUR)
  {
    HourIsTwelve(h);
    TwoLevel(five, raw, FIVE_MIN, h, h + HOUR);
  }
}
